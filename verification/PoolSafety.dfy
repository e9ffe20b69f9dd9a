/** What every reachable state of the pool satisfies. */
module PoolSafety {
  import opened Options
  import opened Jobs
  import opened WorkerPool

  // ---------------------------------------------------------------- mutual exclusion

  /** The thread is between obtaining `queue_mutex` and giving it up. */
  predicate Holds(th: Thread) {
    match th
    case Producer(pc, _, _, _, _) =>
      pc.PCheckShutdown? || pc.PTestFull? || pc.PRecheckShutdown? || pc.PSignal?
      || pc.PUnlockAccepted? || pc.PUnlockRejected?
    case Worker(pc) =>
      pc.WTestEmpty? || pc.WTake? || pc.WSignal? || pc.WUnlock? || pc.WUnlockNull?
    case Controller(pc, _) =>
      pc.CSetShutdown? || pc.CBroadcastNotEmpty? || pc.CBroadcastNotFull? || pc.CUnlock?
      || pc.CCleanUp? || pc.CUnlockCleanUp?
  }

  ghost predicate Mutual(s: Pool) {
    forall t :: 0 <= t < |s.threads| ==> (Holds(s.threads[t]) <==> s.mutex == Some(t))
  }

  ghost predicate Shape(s: Pool) {
    && 1 <= s.workers <= |s.threads| && s.data.capacity >= 1
    && (s.mutex.Some? ==> s.mutex.value < |s.threads|)
    && forall t :: 0 <= t < |s.threads| ==> (s.threads[t].Worker? <==> t < s.workers)
  }

  lemma ShapeProducer(s: Pool, a: Action)
    requires Shape(s) && Mutual(s) && Enabled(s, a)
    requires a.Run? && s.threads[a.tid].Producer?
    ensures Shape(Next(s, a)) && Mutual(Next(s, a))
  {
  }

  lemma ShapeWorker(s: Pool, a: Action)
    requires Shape(s) && Mutual(s) && Enabled(s, a)
    requires a.Run? && s.threads[a.tid].Worker?
    ensures Shape(Next(s, a)) && Mutual(Next(s, a))
  {
  }

  lemma ShapeController(s: Pool, a: Action)
    requires Shape(s) && Mutual(s) && Enabled(s, a)
    requires a.Run? && s.threads[a.tid].Controller?
    ensures Shape(Next(s, a)) && Mutual(Next(s, a))
  {
  }

  lemma ShapeWakeup(s: Pool, a: Action)
    requires Shape(s) && Mutual(s) && Enabled(s, a)
    requires !a.Run?
    ensures Shape(Next(s, a)) && Mutual(Next(s, a))
  {
  }

  lemma {:induction false} ShapeStep(s: Pool, a: Action)
    requires Shape(s) && Mutual(s) && Enabled(s, a)
    ensures Shape(Next(s, a)) && Mutual(Next(s, a))
  {
    if !a.Run? {
      ShapeWakeup(s, a);
    } else {
      match s.threads[a.tid]
      case Producer(_, _, _, _, _) => ShapeProducer(s, a);
      case Worker(_) => ShapeWorker(s, a);
      case Controller(_, _) => ShapeController(s, a);
    }
  }

  /** While a thread holds the mutex, no step of another thread touches the shared data. */
  lemma {:induction false} OnlyTheHolderWrites(s: Pool, a: Action)
    requires Shape(s) && Mutual(s) && Enabled(s, a)
    ensures Next(s, a).data != s.data ==> a.Run? && s.mutex == Some(a.tid)
    ensures Next(s, a).accepted != s.accepted || Next(s, a).dequeued != s.dequeued
      ==> a.Run? && s.mutex == Some(a.tid)
  {
  }

  // ---------------------------------------------------------------- FIFO queue

  ghost predicate Fifo(s: Pool) {
    && s.data.size == |s.data.queue| <= s.data.capacity
    && s.accepted == s.dequeued + s.data.queue
  }

  ghost predicate ThreadOk(d: PoolData, th: Thread) {
    match th
    case Producer(pc, listing, accepted, rejected, todo) =>
      && listing == accepted + rejected + todo
      && (rejected != [] || pc.PUnlockRejected? || pc.PFree? ==> d.shutdown)
      && (!pc.PReady? && !pc.PSignal? && !pc.PUnlockAccepted? ==> todo != [])
      && (pc.PRecheckShutdown? ==> d.size < d.capacity || d.shutdown)
    case Worker(pc) =>
      && (pc.WTake? ==> d.size > 0 || d.shutdown)
      && (pc.WUnlockNull? || pc.WExited? ==> d.shutdown && d.queue == [])
    case Controller(pc, _) =>
      pc.CLock? || pc.CSetShutdown? || d.shutdown
  }

  ghost predicate ThreadsOk(s: Pool) {
    forall t :: 0 <= t < |s.threads| ==> ThreadOk(s.data, s.threads[t])
  }

  /** How far a join loop has come. */
  ghost predicate JoinOk(s: Pool, th: Thread) {
    match th
    case Controller(pc, kind) =>
      && (pc.CJoin? ==> kind != SignalOnly && pc.next <= s.workers && ExitedBelow(s, pc.next))
      && (PastJoin(pc, kind) ==> ExitedBelow(s, s.workers))
    case _ => true
  }

  ghost predicate ExitedBelow(s: Pool, n: nat) {
    n <= |s.threads| && forall i :: 0 <= i < n ==> s.threads[i] == Worker(WExited)
  }

  predicate PastJoin(pc: ControllerPc, kind: ControllerKind) {
    pc.CLockCleanUp? || pc.CCleanUp? || pc.CUnlockCleanUp? || (pc.CDone? && kind != SignalOnly)
  }

  ghost predicate JoinsOk(s: Pool) {
    forall t :: 0 <= t < |s.threads| ==> JoinOk(s, s.threads[t])
  }

  ghost predicate Safe(s: Pool) {
    Shape(s) && Mutual(s) && Fifo(s) && ThreadsOk(s) && JoinsOk(s)
  }

  /** Once a join loop is over nothing is queued: the clean-up loop has nothing to free. */
  lemma {:induction false} NothingLeftAfterJoin(s: Pool, t: nat)
    requires Safe(s) && t < |s.threads| && s.threads[t].Controller?
    requires PastJoin(s.threads[t].cpc, s.threads[t].kind)
    ensures s.data.queue == [] && s.data.shutdown
  {
    assert s.threads[0] == Worker(WExited);
    assert ThreadOk(s.data, s.threads[0]);
  }

  lemma FifoStep(s: Pool, a: Action)
    requires Safe(s) && Enabled(s, a)
    ensures Fifo(Next(s, a))
  {
    if a.Run? && s.threads[a.tid].Controller? && s.threads[a.tid].cpc == CCleanUp {
      NothingLeftAfterJoin(s, a.tid);
    }
  }

  /** The one-way part of the shared data: the flag stays set, and a queue that is empty
      then stays empty. */
  ghost predicate Evolves(d: PoolData, d': PoolData) {
    && (d.shutdown ==> d'.shutdown)
    && (d.shutdown && d.queue == [] ==> d'.queue == [])
  }

  lemma StepEvolves(s: Pool, a: Action)
    requires Safe(s) && Enabled(s, a)
    ensures Evolves(s.data, Next(s, a).data)
  {
  }

  /** A thread that does not act stays put, or is woken. */
  lemma OthersStay(s: Pool, a: Action, t: nat)
    requires Enabled(s, a) && t < |s.threads| && t != a.tid
    ensures |Next(s, a).threads| == |s.threads|
    ensures Next(s, a).threads[t] == s.threads[t]
      || (Asleep(s.threads[t]) && Next(s, a).threads[t] == Awake(s.threads[t]))
  {
  }

  lemma ActorOkProducer(s: Pool, a: Action)
    requires Safe(s) && Enabled(s, a)
    requires a.Run? && s.threads[a.tid].Producer?
    ensures |Next(s, a).threads| == |s.threads|
    ensures ThreadOk(Next(s, a).data, Next(s, a).threads[a.tid])
  {
    assert ThreadOk(s.data, s.threads[a.tid]);
  }

  lemma ActorOkWorker(s: Pool, a: Action)
    requires Safe(s) && Enabled(s, a)
    requires a.Run? && s.threads[a.tid].Worker?
    ensures |Next(s, a).threads| == |s.threads|
    ensures ThreadOk(Next(s, a).data, Next(s, a).threads[a.tid])
  {
    assert ThreadOk(s.data, s.threads[a.tid]);
  }

  lemma ActorOkController(s: Pool, a: Action)
    requires Safe(s) && Enabled(s, a)
    requires a.Run? && s.threads[a.tid].Controller?
    ensures |Next(s, a).threads| == |s.threads|
    ensures ThreadOk(Next(s, a).data, Next(s, a).threads[a.tid])
  {
    assert ThreadOk(s.data, s.threads[a.tid]);
  }

  lemma ActorOkWakeup(s: Pool, a: Action)
    requires Safe(s) && Enabled(s, a)
    requires !a.Run?
    ensures |Next(s, a).threads| == |s.threads|
    ensures ThreadOk(Next(s, a).data, Next(s, a).threads[a.tid])
  {
    assert ThreadOk(s.data, s.threads[a.tid]);
  }

  lemma ActorOk(s: Pool, a: Action)
    requires Safe(s) && Enabled(s, a)
    ensures |Next(s, a).threads| == |s.threads|
    ensures ThreadOk(Next(s, a).data, Next(s, a).threads[a.tid])
  {
    if !a.Run? {
      ActorOkWakeup(s, a);
    } else {
      match s.threads[a.tid]
      case Producer(_, _, _, _, _) => ActorOkProducer(s, a);
      case Worker(_) => ActorOkWorker(s, a);
      case Controller(_, _) => ActorOkController(s, a);
    }
  }

  lemma ThreadsOkStep(s: Pool, a: Action)
    requires Safe(s) && Enabled(s, a)
    ensures ThreadsOk(Next(s, a))
  {
    var s' := Next(s, a);
    ActorOk(s, a);
    StepEvolves(s, a);
    OnlyTheHolderWrites(s, a);
    forall t | 0 <= t < |s'.threads|
      ensures ThreadOk(s'.data, s'.threads[t])
    {
      if t != a.tid {
        OthersStay(s, a, t);
        assert ThreadOk(s.data, s.threads[t]);
      }
    }
  }

  lemma ExitedStays(s: Pool, a: Action, n: nat)
    requires Safe(s) && Enabled(s, a) && ExitedBelow(s, n)
    ensures ExitedBelow(Next(s, a), n)
  {
    StepKeepsThreads(s, a);
    forall i | 0 <= i < n
      ensures Next(s, a).threads[i] == Worker(WExited)
    {
      if i != a.tid { OthersStay(s, a, i); }
    }
  }

  lemma StepKeepsThreads(s: Pool, a: Action)
    requires Enabled(s, a)
    ensures |Next(s, a).threads| == |s.threads| && Next(s, a).workers == s.workers
  {
  }

  /** A controller's step takes its join loop on by at most one exited worker. */
  lemma JoinAdvances(s: Pool, t: nat)
    requires Safe(s) && Enabled(s, Run(t)) && s.threads[t].Controller?
    ensures JoinOk(Next(s, Run(t)), Next(s, Run(t)).threads[t])
  {
    var pc := s.threads[t].cpc;
    assert JoinOk(s, s.threads[t]);
    if pc.CJoin? {
      ExitedStays(s, Run(t), pc.next);
    } else if PastJoin(pc, s.threads[t].kind) {
      ExitedStays(s, Run(t), s.workers);
    }
  }

  lemma JoinsOkStep(s: Pool, a: Action)
    requires Safe(s) && Enabled(s, a)
    ensures JoinsOk(Next(s, a))
  {
    var s' := Next(s, a);
    StepKeepsThreads(s, a);
    forall t | 0 <= t < |s'.threads|
      ensures JoinOk(s', s'.threads[t])
    {
      if s.threads[t].Controller? {
        JoinKept(s, a, t);
      } else {
        NonControllerStays(s, a, t);
      }
    }
  }

  lemma NonControllerStays(s: Pool, a: Action, t: nat)
    requires Enabled(s, a) && t < |s.threads| && !s.threads[t].Controller?
    ensures t < |Next(s, a).threads| && !Next(s, a).threads[t].Controller?
  {
    if t != a.tid { OthersStay(s, a, t); }
  }

  lemma JoinKept(s: Pool, a: Action, t: nat)
    requires Safe(s) && Enabled(s, a) && t < |s.threads| && s.threads[t].Controller?
    ensures t < |Next(s, a).threads| && JoinOk(Next(s, a), Next(s, a).threads[t])
  {
    StepKeepsThreads(s, a);
    assert JoinOk(s, s.threads[t]);
    if t == a.tid && a.Run? {
      JoinAdvances(s, t);
    } else {
      var pc := s.threads[t].cpc;
      ControllerStays(s, a, t);
      if pc.CJoin? {
        ExitedStays(s, a, pc.next);
      } else if PastJoin(pc, s.threads[t].kind) {
        ExitedStays(s, a, s.workers);
      }
    }
  }

  lemma ControllerStays(s: Pool, a: Action, t: nat)
    requires Enabled(s, a) && t < |s.threads| && s.threads[t].Controller? && (t != a.tid || !a.Run?)
    ensures t < |Next(s, a).threads| && Next(s, a).threads[t] == s.threads[t]
  {
    if t != a.tid { OthersStay(s, a, t); }
  }

  lemma {:induction false} SafeStep(s: Pool, a: Action)
    requires Safe(s) && Enabled(s, a)
    ensures Safe(Next(s, a))
  {
    ShapeStep(s, a);
    FifoStep(s, a);
    ThreadsOkStep(s, a);
    JoinsOkStep(s, a);
  }
}
