/** The pool never gets stuck with work left, and shutdown ends every thread. */
module PoolLiveness {
  import opened Options
  import opened Folds
  import opened WorkerPool
  import opened PoolSafety
  import opened PoolWakeups

  // ---------------------------------------------------------------- lost wakeups

  function WokenWorker(th: Thread): int { if th == Worker(WWoken) then 1 else 0 }

  function WokenProducer(th: Thread): int { if th.Producer? && th.pc == PWoken then 1 else 0 }

  /** Whenever the mutex is free before shutdown, the woken workers cover the queued jobs if
      any worker still sleeps, and the woken producers cover the free slots if any producer
      still sleeps. */
  lemma {:induction false} NoLostWakeup(from: Pool, trace: seq<Action>, s: Pool)
    requires Init(from) && Reaches(from, trace, s)
    requires s.mutex == None && !s.data.shutdown
    ensures SomeAsleep(s, WorkerAsleep) ==> Sum(s.threads, WokenWorker) >= s.data.size
    ensures SomeAsleep(s, ProducerAsleep) ==> Sum(s.threads, WokenProducer) >= s.data.capacity - s.data.size
  {
    GoodInit(from);
    GoodReached(from, trace, s);
    SumLeq(s.threads, s.threads, JobCredit, WokenWorker);
    SumLeq(s.threads, s.threads, RoomCredit, WokenProducer);
  }

  // ---------------------------------------------------------------- deadlock freedom

  /** No thread can take a step of its own. */
  ghost predicate Stuck(s: Pool) {
    forall a: Action :: Enabled(s, a) ==> a.SpuriousWakeup?
  }

  predicate Finished(th: Thread) {
    match th
    case Producer(pc, _, _, _, todo) => pc.PReady? && todo == []
    case Worker(pc) => pc.WExited?
    case Controller(pc, _) => pc.CDone?
  }

  lemma StuckMeansMutexFree(s: Pool)
    requires Good(s) && Stuck(s)
    ensures s.mutex == None
  {
    if s.mutex.Some? {
      var t := s.mutex.value;
      assert ThreadOk(s.data, s.threads[t]) && Holds(s.threads[t]);
      assert !Enabled(s, Run(t));
      var w :| 0 <= w < |s.threads| && Wakes(s.threads[t], s.threads[w]);
      assert Enabled(s, Signal(t, w));
    }
  }

  /** What a thread that cannot move looks like when the mutex is free. */
  lemma StuckThread(s: Pool, t: nat)
    requires Good(s) && Stuck(s) && s.mutex == None && t < |s.threads|
    ensures Finished(s.threads[t]) || Asleep(s.threads[t])
      || (s.threads[t].Controller? && s.threads[t].cpc.CJoin? && s.data.shutdown
          && !ExitedBelow(s, s.workers))
  {
    assert ThreadOk(s.data, s.threads[t]);
    assert JoinOk(s, s.threads[t]);
    assert !Holds(s.threads[t]);
    assert !Enabled(s, Run(t));
  }

  /** Deadlock freedom of the pool, provided that the processing of a job always returns (when
      it does not, is the business of `FleetRuns`). When nothing but a spurious wakeup could happen, nothing is queued,
      every producer and controller has finished, and the workers have all exited after a
      shutdown, or all wait for jobs where nobody is going to shut the pool down. */
  lemma {:induction false} StuckOnlyWhenDone(from: Pool, trace: seq<Action>, s: Pool)
    requires Init(from) && Reaches(from, trace, s) && Stuck(s)
    ensures s.mutex == None && s.data.queue == []
    ensures forall t :: s.workers <= t < |s.threads| ==> Finished(s.threads[t])
    ensures s.data.shutdown ==> ExitedBelow(s, s.workers)
    ensures !s.data.shutdown ==> forall t :: 0 <= t < |s.threads| ==>
      if t < s.workers then WorkerAsleep(s.threads[t]) else s.threads[t].Producer?
  {
    GoodInit(from);
    GoodReached(from, trace, s);
    StuckMeansMutexFree(s);
    forall t | 0 <= t < |s.threads|
      ensures Finished(s.threads[t]) || Asleep(s.threads[t])
        || (s.threads[t].Controller? && s.threads[t].cpc.CJoin? && s.data.shutdown
            && !ExitedBelow(s, s.workers))
      ensures ThreadOk(s.data, s.threads[t])
    {
      StuckThread(s, t);
    }
    if s.data.shutdown {
      assert forall t :: 0 <= t < |s.threads| ==> !Asleep(s.threads[t]);
      assert ExitedBelow(s, s.workers);
      assert s.threads[0] == Worker(WExited);
    } else {
      SumZero(s.threads, JobCredit);
      SumZero(s.threads, RoomCredit);
      assert WorkerAsleep(s.threads[0]);
    }
  }

  // ---------------------------------------------------------------- nobody sleeps after the broadcast

  ghost predicate NobodyAsleep(s: Pool) {
    forall t :: 0 <= t < |s.threads| ==> !Asleep(s.threads[t])
  }

  lemma {:induction false} NobodyFallsAsleepAgain(s: Pool, trace: seq<Action>, s': Pool)
    requires Good(s) && s.data.shutdown && NobodyAsleep(s) && Reaches(s, trace, s')
    ensures NobodyAsleep(s') && s'.data.shutdown
    decreases |trace|
  {
    if trace != [] {
      var a := trace[0];
      GoodReached(s, [a], Next(s, a));
      StepEvolves(s, a);
      SleepersAfterStep(s, a);
      NobodyFallsAsleepAgain(Next(s, a), trace[1..], s');
    }
  }

  /** Once a shutdown has released the mutex nobody is asleep, and nobody ever sleeps again. */
  lemma {:induction false} NobodySleepsAfterBroadcast(from: Pool, trace: seq<Action>, s: Pool,
                                                      later: seq<Action>, s': Pool)
    requires Init(from) && Reaches(from, trace, s) && s.data.shutdown && s.mutex == None
    requires Reaches(s, later, s')
    ensures NobodyAsleep(s) && NobodyAsleep(s')
  {
    GoodInit(from);
    GoodReached(from, trace, s);
    NobodyFallsAsleepAgain(s, later, s');
  }

  // ---------------------------------------------------------------- termination after shutdown

  function Rank(workers: nat, th: Thread): int {
    match th
    case Producer(pc, _, _, _, todo) =>
      20 * |todo| + (match pc
        case PSignal => 12
        case PUnlockAccepted => 11
        case PReady => 10
        case PLock => 9
        case PCheckShutdown => 8
        case PAsleep => 7
        case PWoken => 6
        case PTestFull => 5
        case PRecheckShutdown => 4
        case PUnlockRejected => 3
        case PFree => 2)
    case Worker(pc) =>
      (match pc
       case WSignal(_) => 15
       case WUnlock(_) => 14
       case WProcess(_) => 13
       case WFree(_) => 12
       case WLock => 10
       case WAsleep => 9
       case WWoken => 8
       case WTestEmpty => 7
       case WTake => 6
       case WUnlockNull => 5
       case WExited => 0)
    case Controller(pc, _) =>
      (match pc
       case CLock => workers + 15
       case CSetShutdown => workers + 14
       case CBroadcastNotEmpty => workers + 13
       case CBroadcastNotFull => workers + 12
       case CUnlock => workers + 11
       case CJoin(next) => (if next <= workers then workers - next else 0) + 6
       case CLockCleanUp => 4
       case CCleanUp => 3
       case CUnlockCleanUp => 2
       case CDone => 0)
  }

  function RankOf(workers: nat): Thread -> int { th => Rank(workers, th) }

  /** What is left to do: every queued job and every thread's way to its end. */
  function Measure(s: Pool): int {
    20 * |s.data.queue| + Sum(s.threads, RankOf(s.workers))
  }

  lemma ActorRankFalls(s: Pool, t: nat)
    requires Good(s) && s.data.shutdown && Enabled(s, Run(t))
    ensures var s' := Next(s, Run(t));
      20 * |s'.data.queue| + Rank(s.workers, s'.threads[t]) < 20 * |s.data.queue| + Rank(s.workers, s.threads[t])
  {
    assert ThreadOk(s.data, s.threads[t]);
    assert JoinOk(s, s.threads[t]);
    var th := s.threads[t];
    if th.Controller? && th.cpc == CCleanUp {
      NothingLeftAfterJoin(s, t);
    }
  }

  lemma SumAfterRun(s: Pool, t: nat, f: Thread -> int)
    requires Enabled(s, Run(t))
    requires forall th | Asleep(th) :: f(Awake(th)) <= f(th)
    ensures Sum(Next(s, Run(t)).threads, f) <= Sum(s.threads, f) - f(s.threads[t]) + f(Next(s, Run(t)).threads[t])
  {
    var s' := Next(s, Run(t));
    var base := s'.threads[t := s.threads[t]];
    SumLeq(base, s.threads, f, f) by {
      forall i | 0 <= i < |base| ensures f(base[i]) <= f(s.threads[i]) {
        if i != t { OthersStay(s, Run(t), i); }
      }
    }
    assert s'.threads == base[t := s'.threads[t]];
    SumUpdate(base, t, s'.threads[t], f);
  }

  /** After shutdown every step, spurious wakeups included, leaves less to do. */
  lemma {:induction false} MeasureFalls(s: Pool, a: Action)
    requires Good(s) && s.data.shutdown && Enabled(s, a)
    ensures Measure(Next(s, a)) < Measure(s)
  {
    var f := RankOf(s.workers);
    match a
    case Run(t) =>
      ActorRankFalls(s, t);
      SumAfterRun(s, t, f);
    case Signal(t, w) =>
      CreditAfterSignal(s, t, w, f);
    case SpuriousWakeup(t) =>
      CreditAfterWakeup(s, t, f);
  }

  lemma MeasureNonNegative(s: Pool)
    ensures Measure(s) >= 0
  {
    SumNonNegative(s.threads, RankOf(s.workers));
  }

  /** From shutdown on, a run of any scheduling has at most `Measure` steps. */
  lemma {:induction false} RunsAfterShutdownEnd(s: Pool, trace: seq<Action>, s': Pool)
    requires Good(s) && s.data.shutdown && Reaches(s, trace, s')
    ensures |trace| + Measure(s') <= Measure(s)
    ensures s'.data.shutdown && s'.workers == s.workers
    decreases |trace|
  {
    if trace != [] {
      var a := trace[0];
      GoodReached(s, [a], Next(s, a));
      StepEvolves(s, a);
      MeasureFalls(s, a);
      RunsAfterShutdownEnd(Next(s, a), trace[1..], s');
    }
  }
}
