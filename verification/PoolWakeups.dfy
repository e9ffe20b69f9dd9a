/** No wakeup is lost, although every operation signals and none broadcasts; nobody waits
    for ever on a condition that holds; nobody sleeps after the shutdown broadcast. */
module PoolWakeups {
  import opened Folds
  import opened WorkerPool
  import opened PoolSafety

  /** 1 for a thread that is on its way to a queued job, or owes the signal for one. */
  function JobCredit(th: Thread): int {
    match th
    case Worker(pc) => if pc.WWoken? || pc.WTestEmpty? || pc.WTake? then 1 else 0
    case Producer(pc, _, _, _, _) => if pc.PSignal? then 1 else 0
    case Controller(_, _) => 0
  }

  /** 1 for a thread that is on its way to a free slot, or owes the signal for one. */
  function RoomCredit(th: Thread): int {
    match th
    case Producer(pc, _, _, _, _) => if pc.PWoken? || pc.PTestFull? || pc.PRecheckShutdown? then 1 else 0
    case Worker(pc) => if pc.WSignal? then 1 else 0
    case Controller(_, _) => 0
  }

  predicate SomeAsleep(s: Pool, sleeps: Thread -> bool) {
    exists t :: 0 <= t < |s.threads| && sleeps(s.threads[t])
  }

  /** While a worker sleeps, every queued job has a thread of its own that is awake and will
      deal with it. */
  ghost predicate JobsCredited(s: Pool) {
    !s.data.shutdown && SomeAsleep(s, WorkerAsleep) ==> Sum(s.threads, JobCredit) >= s.data.size
  }

  /** While a producer sleeps, every free slot has a thread of its own. */
  ghost predicate RoomCredited(s: Pool) {
    !s.data.shutdown && SomeAsleep(s, ProducerAsleep) ==>
      Sum(s.threads, RoomCredit) >= s.data.capacity - s.data.size
  }

  /** The credit sums move only by what the acting and the woken thread contribute. */
  lemma CreditAfterRun(s: Pool, t: nat, f: Thread -> int)
    requires Enabled(s, Run(t)) && !Next(s, Run(t)).data.shutdown && Safe(s)
    ensures Sum(Next(s, Run(t)).threads, f) == Sum(s.threads, f) - f(s.threads[t]) + f(Next(s, Run(t)).threads[t])
  {
    assert ThreadOk(s.data, s.threads[t]);
    var s' := Next(s, Run(t));
    assert s'.threads == s.threads[t := s'.threads[t]];
    SumUpdate(s.threads, t, s'.threads[t], f);
  }

  lemma CreditAfterWakeup(s: Pool, t: nat, f: Thread -> int)
    requires Enabled(s, SpuriousWakeup(t))
    ensures Sum(Next(s, SpuriousWakeup(t)).threads, f) == Sum(s.threads, f) - f(s.threads[t]) + f(Awake(s.threads[t]))
  {
    SumUpdate(s.threads, t, Awake(s.threads[t]), f);
  }

  lemma CreditAfterSignal(s: Pool, t: nat, w: nat, f: Thread -> int)
    requires Enabled(s, Signal(t, w))
    ensures Sum(Next(s, Signal(t, w)).threads, f) == Sum(s.threads, f)
      - f(s.threads[t]) + f(AfterSignal(s.threads[t])) - f(s.threads[w]) + f(Awake(s.threads[w]))
  {
    var one := s.threads[w := Awake(s.threads[w])];
    SumUpdate(s.threads, w, Awake(s.threads[w]), f);
    SumUpdate(one, t, AfterSignal(s.threads[t]), f);
  }

  /** The step by which a thread falls asleep, having found nothing to do. */
  predicate FallsAsleep(s: Pool, a: Action, th: Thread) {
    && a.Run?
    && ((th == Worker(WTestEmpty) && s.data.MustWaitForJob())
        || (th.Producer? && th.pc == PTestFull && s.data.MustWaitForRoom()))
  }

  lemma SleepersAfterStep(s: Pool, a: Action)
    requires Safe(s) && Enabled(s, a)
    requires !FallsAsleep(s, a, s.threads[a.tid])
    ensures SomeAsleep(Next(s, a), WorkerAsleep) ==> SomeAsleep(s, WorkerAsleep)
    ensures SomeAsleep(Next(s, a), ProducerAsleep) ==> SomeAsleep(s, ProducerAsleep)
  {
    var s' := Next(s, a);
    forall t | 0 <= t < |s'.threads| && t != a.tid
      ensures Asleep(s'.threads[t]) ==> s'.threads[t] == s.threads[t]
    {
      OthersStay(s, a, t);
    }
  }

  lemma CreditedFallsAsleep(s: Pool, a: Action)
    requires Safe(s) && JobsCredited(s) && RoomCredited(s) && Enabled(s, a)
    requires FallsAsleep(s, a, s.threads[a.tid])
    ensures JobsCredited(Next(s, a)) && RoomCredited(Next(s, a))
  {
    var s' := Next(s, a);
    SumNonNegative(s'.threads, JobCredit);
    SumNonNegative(s'.threads, RoomCredit);
    CreditAfterRun(s, a.tid, JobCredit);
    CreditAfterRun(s, a.tid, RoomCredit);
    forall t | 0 <= t < |s'.threads| && t != a.tid
      ensures Asleep(s'.threads[t]) ==> s'.threads[t] == s.threads[t]
    {
      OthersStay(s, a, t);
    }
  }

  lemma CreditedRun(s: Pool, t: nat)
    requires Safe(s) && JobsCredited(s) && RoomCredited(s) && Enabled(s, Run(t))
    requires !FallsAsleep(s, Run(t), s.threads[t])
    ensures JobsCredited(Next(s, Run(t))) && RoomCredited(Next(s, Run(t)))
  {
    if !Next(s, Run(t)).data.shutdown {
      assert ThreadOk(s.data, s.threads[t]);
      SleepersAfterStep(s, Run(t));
      CreditAfterRun(s, t, JobCredit);
      CreditAfterRun(s, t, RoomCredit);
    }
  }

  lemma CreditedSignal(s: Pool, t: nat, w: nat)
    requires Safe(s) && JobsCredited(s) && RoomCredited(s) && Enabled(s, Signal(t, w))
    ensures JobsCredited(Next(s, Signal(t, w))) && RoomCredited(Next(s, Signal(t, w)))
  {
    SleepersAfterStep(s, Signal(t, w));
    CreditAfterSignal(s, t, w, JobCredit);
    CreditAfterSignal(s, t, w, RoomCredit);
  }

  lemma CreditedWakeup(s: Pool, t: nat)
    requires Safe(s) && JobsCredited(s) && RoomCredited(s) && Enabled(s, SpuriousWakeup(t))
    ensures JobsCredited(Next(s, SpuriousWakeup(t))) && RoomCredited(Next(s, SpuriousWakeup(t)))
  {
    SleepersAfterStep(s, SpuriousWakeup(t));
    CreditAfterWakeup(s, t, JobCredit);
    CreditAfterWakeup(s, t, RoomCredit);
  }

  lemma {:induction false} CreditedStep(s: Pool, a: Action)
    requires Safe(s) && JobsCredited(s) && RoomCredited(s) && Enabled(s, a)
    ensures JobsCredited(Next(s, a)) && RoomCredited(Next(s, a))
  {
    if FallsAsleep(s, a, s.threads[a.tid]) {
      CreditedFallsAsleep(s, a);
    } else {
      match a
      case Run(t) => CreditedRun(s, t);
      case Signal(t, w) => CreditedSignal(s, t, w);
      case SpuriousWakeup(t) => CreditedWakeup(s, t);
    }
  }

  /** After shutdown a sleeper is one the broadcasting thread is about to wake. */
  ghost predicate Roused(s: Pool) {
    s.data.shutdown ==>
      && (SomeAsleep(s, WorkerAsleep) ==> BroadcastPending(s, {CBroadcastNotEmpty}))
      && (SomeAsleep(s, ProducerAsleep) ==> BroadcastPending(s, {CBroadcastNotEmpty, CBroadcastNotFull}))
  }

  ghost predicate BroadcastPending(s: Pool, pcs: set<ControllerPc>) {
    && s.mutex.Some? && s.mutex.value < |s.threads|
    && s.threads[s.mutex.value].Controller? && s.threads[s.mutex.value].cpc in pcs
  }

  lemma {:induction false} RousedStep(s: Pool, a: Action)
    requires Safe(s) && Roused(s) && Enabled(s, a)
    ensures Roused(Next(s, a))
  {
    if !FallsAsleep(s, a, s.threads[a.tid]) {
      SleepersAfterStep(s, a);
    }
  }

  // ---------------------------------------------------------------- every run

  ghost predicate Good(s: Pool) {
    Safe(s) && JobsCredited(s) && RoomCredited(s) && Roused(s)
  }

  lemma GoodInit(s: Pool)
    requires Init(s)
    ensures Good(s)
  {
  }

  lemma {:induction false} GoodReached(from: Pool, trace: seq<Action>, s: Pool)
    requires Good(from) && Reaches(from, trace, s)
    ensures Good(s)
    decreases |trace|
  {
    if trace != [] {
      var next := Next(from, trace[0]);
      SafeStep(from, trace[0]);
      CreditedStep(from, trace[0]);
      RousedStep(from, trace[0]);
      GoodReached(next, trace[1..], s);
    }
  }
}
