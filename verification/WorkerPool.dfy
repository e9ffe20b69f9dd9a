/** The pool as a small-step transition system over any number of threads
    (`src/thread_pool.c`). One action is one step of one thread between two points where
    another thread may run: taking the mutex, one loop test, one list update, one signal, one
    broadcast, one unlock. `pthread_cond_wait` is three steps: give up the mutex and fall
    asleep, be woken, take the mutex again. A signal wakes any one sleeper of its condition
    variable, and a sleeper may also wake by itself. */
module WorkerPool {
  import opened Options
  import opened Jobs

  /** `enqueue_sync_job`, called for each job of a listing in turn. */
  datatype ProducerPc =
    | PReady            // before create_sync_job for the next job
    | PLock             // waiting for queue_mutex at entry
    | PCheckShutdown    // first test of shutdown
    | PTestFull         // loop test
    | PAsleep           // in pthread_cond_wait(queue_not_full)
    | PWoken            // woken, waiting for queue_mutex
    | PRecheckShutdown  // second test of shutdown, then the list update
    | PSignal           // about to signal queue_not_empty
    | PUnlockAccepted
    | PUnlockRejected
    | PFree             // the caller frees the job after a failed enqueue

  /** `worker_thread` with `dequeue_sync_job`. */
  datatype WorkerPc =
    | WLock
    | WTestEmpty
    | WAsleep           // in pthread_cond_wait(queue_not_empty)
    | WWoken
    | WTake             // tests shutdown, then unlinks the head
    | WSignal(job: Job) // about to signal queue_not_full
    | WUnlock(job: Job)
    | WUnlockNull       // about to return NULL
    | WProcess(job: Job) // in sync_single_file, which returns
    | WFree(job: Job)
    | WExited

  /** `signal_shutdown`, optionally followed by `wait_for_workers`, and `destroy_thread_pool`. */
  datatype ControllerKind = SignalOnly | SignalAndWait | Destroy

  datatype ControllerPc =
    | CLock
    | CSetShutdown
    | CBroadcastNotEmpty
    | CBroadcastNotFull
    | CUnlock
    | CJoin(next: nat)
    | CLockCleanUp
    | CCleanUp
    | CUnlockCleanUp
    | CDone

  datatype Thread =
    | Producer(pc: ProducerPc, listing: seq<Job>, accepted: seq<Job>, rejected: seq<Job>, todo: seq<Job>)
    | Worker(wpc: WorkerPc)
    | Controller(cpc: ControllerPc, kind: ControllerKind)

  /** Threads `0..workers` are the workers. The last four fields only record what happened. */
  datatype Pool = Pool(
    data: PoolData, mutex: Option<nat>, workers: nat, threads: seq<Thread>,
    accepted: seq<Job>, dequeued: seq<Job>, processed: seq<Job>, freed: seq<Job>)

  datatype Action = Run(tid: nat) | Signal(tid: nat, woken: nat) | SpuriousWakeup(tid: nat)

  ghost predicate Init(s: Pool) {
    && s.data.queue == [] && s.data.size == 0 && s.data.capacity >= 1 && !s.data.shutdown
    && s.mutex == None
    && 1 <= s.workers <= |s.threads|
    && (forall t :: 0 <= t < |s.threads| ==> InitThread(s.threads[t], t < s.workers))
    && s.accepted == s.dequeued == s.processed == s.freed == []
  }

  predicate InitThread(th: Thread, isWorker: bool) {
    match th
    case Worker(pc) => isWorker && pc == WLock
    case Producer(pc, listing, accepted, rejected, todo) =>
      !isWorker && pc == PReady && todo == listing && accepted == rejected == []
    case Controller(pc, _) => !isWorker && pc == CLock
  }

  predicate WorkerAsleep(th: Thread) { th == Worker(WAsleep) }

  predicate ProducerAsleep(th: Thread) { th.Producer? && th.pc == PAsleep }

  predicate Asleep(th: Thread) { WorkerAsleep(th) || ProducerAsleep(th) }

  /** A sleeper that has been woken: it goes on by taking the mutex again. */
  function Awake(th: Thread): Thread
    requires Asleep(th)
  {
    if th.Worker? then Worker(WWoken) else th.(pc := PWoken)
  }

  /** The sleepers a thread about to signal may wake. */
  predicate Wakes(signaller: Thread, sleeper: Thread) {
    || (signaller.Producer? && signaller.pc == PSignal && WorkerAsleep(sleeper))
    || (signaller.Worker? && signaller.wpc.WSignal? && ProducerAsleep(sleeper))
  }

  predicate NobodyToWake(s: Pool, signaller: Thread) {
    forall w :: 0 <= w < |s.threads| ==> !Wakes(signaller, s.threads[w])
  }

  /** What the code makes a thread wait for, apart from waking up. */
  predicate CanRun(s: Pool, th: Thread) {
    match th
    case Producer(pc, _, _, _, todo) =>
      (match pc
       case PReady => todo != []
       case PLock => s.mutex == None
       case PWoken => s.mutex == None
       case PAsleep => false
       case PSignal => NobodyToWake(s, th)
       case PRecheckShutdown => todo != []
       case PFree => todo != []
       case _ => true)
    case Worker(pc) =>
      (match pc
       case WLock => s.mutex == None
       case WWoken => s.mutex == None
       case WAsleep => false
       case WSignal(_) => NobodyToWake(s, th)
       case WExited => false
       case _ => true)
    case Controller(pc, _) =>
      (match pc
       case CLock => s.mutex == None
       case CLockCleanUp => s.mutex == None
       case CJoin(next) => next < s.workers <= |s.threads| ==> s.threads[next] == Worker(WExited)
       case CDone => false
       case _ => true)
  }

  predicate Enabled(s: Pool, a: Action) {
    match a
    case Run(t) => t < |s.threads| && CanRun(s, s.threads[t])
    case Signal(t, w) => t < |s.threads| && w < |s.threads| && Wakes(s.threads[t], s.threads[w])
    case SpuriousWakeup(t) => t < |s.threads| && Asleep(s.threads[t])
  }

  function Next(s: Pool, a: Action): Pool
    requires Enabled(s, a)
  {
    match a
    case Run(t) =>
      (match s.threads[t]
       case Producer(_, _, _, _, _) => RunProducer(s, t)
       case Worker(_) => RunWorker(s, t)
       case Controller(_, _) => RunController(s, t))
    case Signal(t, w) =>
      s.(threads := s.threads[w := Awake(s.threads[w])][t := AfterSignal(s.threads[t])])
    case SpuriousWakeup(t) => s.(threads := s.threads[t := Awake(s.threads[t])])
  }

  function AfterSignal(th: Thread): Thread {
    if th.Producer? then th.(pc := PUnlockAccepted)
    else if th.Worker? && th.wpc.WSignal? then Worker(WUnlock(th.wpc.job))
    else th
  }

  function RunProducer(s: Pool, t: nat): Pool
    requires t < |s.threads| && s.threads[t].Producer? && CanRun(s, s.threads[t])
  {
    var th := s.threads[t];
    match th.pc
    case PReady => s.(threads := s.threads[t := th.(pc := PLock)])
    case PLock => s.(mutex := Some(t), threads := s.threads[t := th.(pc := PCheckShutdown)])
    case PCheckShutdown =>
      var pc := if s.data.shutdown then PUnlockRejected else PTestFull;
      s.(threads := s.threads[t := th.(pc := pc)])
    case PTestFull =>
      if s.data.MustWaitForRoom() then s.(mutex := None, threads := s.threads[t := th.(pc := PAsleep)])
      else s.(threads := s.threads[t := th.(pc := PRecheckShutdown)])
    case PAsleep => s
    case PWoken => s.(mutex := Some(t), threads := s.threads[t := th.(pc := PTestFull)])
    case PRecheckShutdown =>
      if s.data.shutdown then s.(threads := s.threads[t := th.(pc := PUnlockRejected)])
      else
        var linked := th.(pc := PSignal, accepted := th.accepted + [th.todo[0]], todo := th.todo[1..]);
        s.(data := s.data.Append(th.todo[0]), accepted := s.accepted + [th.todo[0]],
           threads := s.threads[t := linked])
    case PSignal => s.(threads := s.threads[t := AfterSignal(th)])
    case PUnlockAccepted => s.(mutex := None, threads := s.threads[t := th.(pc := PReady)])
    case PUnlockRejected => s.(mutex := None, threads := s.threads[t := th.(pc := PFree)])
    case PFree =>
      var failed := th.(pc := PReady, rejected := th.rejected + [th.todo[0]], todo := th.todo[1..]);
      s.(freed := s.freed + [th.todo[0]], threads := s.threads[t := failed])
  }

  function RunWorker(s: Pool, t: nat): Pool
    requires t < |s.threads| && s.threads[t].Worker?
  {
    match s.threads[t].wpc
    case WLock => s.(mutex := Some(t), threads := s.threads[t := Worker(WTestEmpty)])
    case WTestEmpty =>
      if s.data.MustWaitForJob() then s.(mutex := None, threads := s.threads[t := Worker(WAsleep)])
      else s.(threads := s.threads[t := Worker(WTake)])
    case WAsleep => s
    case WWoken => s.(mutex := Some(t), threads := s.threads[t := Worker(WTestEmpty)])
    case WTake =>
      if s.data.shutdown && s.data.size == 0 then s.(threads := s.threads[t := Worker(WUnlockNull)])
      else if s.data.queue == [] then s.(threads := s.threads[t := Worker(WUnlockNull)])
      else
        var job := s.data.queue[0];
        s.(data := s.data.RemoveHead(), dequeued := s.dequeued + [job],
           threads := s.threads[t := Worker(WSignal(job))])
    case WSignal(job) => s.(threads := s.threads[t := AfterSignal(s.threads[t])])
    case WUnlock(job) => s.(mutex := None, threads := s.threads[t := Worker(WProcess(job))])
    case WUnlockNull => s.(mutex := None, threads := s.threads[t := Worker(WExited)])
    case WProcess(job) =>
      s.(processed := s.processed + [job], threads := s.threads[t := Worker(WFree(job))])
    case WFree(job) => s.(freed := s.freed + [job], threads := s.threads[t := Worker(WLock)])
    case WExited => s
  }

  function RunController(s: Pool, t: nat): Pool
    requires t < |s.threads| && s.threads[t].Controller?
  {
    var th := s.threads[t];
    match th.cpc
    case CLock => s.(mutex := Some(t), threads := s.threads[t := th.(cpc := CSetShutdown)])
    case CSetShutdown =>
      s.(data := s.data.(shutdown := true), threads := s.threads[t := th.(cpc := CBroadcastNotEmpty)])
    case CBroadcastNotEmpty =>
      s.(threads := WakeAll(s.threads, WorkerAsleep)[t := th.(cpc := CBroadcastNotFull)])
    case CBroadcastNotFull =>
      s.(threads := WakeAll(s.threads, ProducerAsleep)[t := th.(cpc := CUnlock)])
    case CUnlock =>
      var pc := if th.kind == SignalOnly then CDone else CJoin(0);
      s.(mutex := None, threads := s.threads[t := th.(cpc := pc)])
    case CJoin(next) =>
      var pc := if next < s.workers then CJoin(next + 1)
                else if th.kind == Destroy then CLockCleanUp else CDone;
      s.(threads := s.threads[t := th.(cpc := pc)])
    case CLockCleanUp => s.(mutex := Some(t), threads := s.threads[t := th.(cpc := CCleanUp)])
    case CCleanUp =>
      if s.data.queue == [] then s.(threads := s.threads[t := th.(cpc := CUnlockCleanUp)])
      else s.(data := s.data.(queue := s.data.queue[1..]), freed := s.freed + [s.data.queue[0]])
    case CUnlockCleanUp => s.(mutex := None, threads := s.threads[t := th.(cpc := CDone)])
    case CDone => s
  }

  function AwakeIf(th: Thread, sleeps: Thread -> bool): Thread {
    if sleeps(th) && Asleep(th) then Awake(th) else th
  }

  /** `pthread_cond_broadcast`. */
  function WakeAll(threads: seq<Thread>, sleeps: Thread -> bool): (woken: seq<Thread>)
    ensures |woken| == |threads|
    ensures forall i :: 0 <= i < |threads| ==> woken[i] == AwakeIf(threads[i], sleeps)
  {
    seq(|threads|, i requires 0 <= i < |threads| => AwakeIf(threads[i], sleeps))
  }

  /** `s` is reached from `from` by performing the actions of `trace` in order. */
  ghost predicate Reaches(from: Pool, trace: seq<Action>, s: Pool)
    decreases |trace|
  {
    if trace == [] then s == from
    else Enabled(from, trace[0]) && Reaches(Next(from, trace[0]), trace[1..], s)
  }
}
