/** The steps one thread takes while it has the mutex add up to the list operations proved for
    the heap: `JobQueue.EnqueueSection` and `JobQueue.DequeueSection` are what `WorkerPool`
    interleaves. */
module PoolSections {
  import opened Options
  import opened Jobs
  import opened JobQueue
  import opened WorkerPool
  import opened PoolSafety

  /** The contract of `JobQueue.EnqueueSection`, on the shared data alone. */
  ghost predicate EnqueueContract(before: PoolData, job: Job, r: EnqueueResult, after: PoolData) {
    && (r == Sleeps <==> before.MustWaitForRoom())
    && (r == Rejected <==> before.shutdown)
    && after == if r == Accepted then before.Append(job) else before
  }

  /** Where a producer stands when a section has ended with a result. */
  function AfterEnqueue(r: EnqueueResult): ProducerPc {
    match r
    case Sleeps => PAsleep
    case Rejected => PUnlockRejected
    case Accepted => PSignal
  }

  /** A producer that runs from the test at which it entered with the mutex, or from the loop
      test after a wakeup, performs one enqueue section. */
  lemma {:induction false} EnqueueStepsAreASection(s: Pool, t: nat)
    returns (trace: seq<Action>, s': Pool, r: EnqueueResult)
    requires Safe(s) && t < |s.threads| && s.threads[t].Producer?
    requires s.threads[t].pc == PCheckShutdown || s.threads[t].pc == PTestFull
    ensures Reaches(s, trace, s') && forall i :: 0 <= i < |trace| ==> trace[i] == Run(t)
    ensures |s'.threads| == |s.threads|
    ensures EnqueueContract(s.data, s.threads[t].todo[0], r, s'.data)
    ensures s'.threads[t].Producer? && s'.threads[t].pc == AfterEnqueue(r)
    ensures s'.mutex == if r == Sleeps then None else Some(t)
  {
    assert ThreadOk(s.data, s.threads[t]) && Holds(s.threads[t]);
    trace, s' := [], s;
    if s.threads[t].pc == PCheckShutdown {
      trace, s' := OneMore(s, trace, s', t);
    }
    if s'.threads[t].pc == PTestFull {
      trace, s' := OneMore(s, trace, s', t);
    }
    if s'.threads[t].pc == PRecheckShutdown {
      trace, s' := OneMore(s, trace, s', t);
    }
    r := if s.data.shutdown then Rejected else if s.data.MustWaitForRoom() then Sleeps else Accepted;
  }

  /** A worker that runs from its loop test performs one dequeue section: it falls asleep on an
      empty queue, leaves with nothing after a shutdown, or takes the head. */
  lemma {:induction false} DequeueStepsAreASection(s: Pool, t: nat) returns (trace: seq<Action>, s': Pool)
    requires Safe(s) && t < |s.threads| && s.threads[t] == Worker(WTestEmpty)
    ensures Reaches(s, trace, s') && forall i :: 0 <= i < |trace| ==> trace[i] == Run(t)
    ensures |s'.threads| == |s.threads|
    ensures s.data.MustWaitForJob() ==> s'.data == s.data && s'.threads[t] == Worker(WAsleep) && s'.mutex == None
    ensures s.data.shutdown && s.data.queue == [] ==> s'.data == s.data && s'.threads[t] == Worker(WUnlockNull)
    ensures s.data.queue != [] ==>
      s'.data == s.data.RemoveHead() && s'.threads[t] == Worker(WSignal(s.data.queue[0]))
  {
    trace, s' := OneMore(s, [], s, t);
    if s'.threads[t] == Worker(WTake) {
      trace, s' := OneMore(s, trace, s', t);
    }
  }

  lemma {:induction false} OneMore(from: Pool, trace: seq<Action>, s: Pool, t: nat)
    returns (trace': seq<Action>, s': Pool)
    requires Reaches(from, trace, s) && Enabled(s, Run(t))
    ensures trace' == trace + [Run(t)] && s' == Next(s, Run(t)) && Reaches(from, trace', s')
  {
    trace', s' := trace + [Run(t)], Next(s, Run(t));
    ReachesMore(from, trace, s, Run(t));
  }

  lemma {:induction false} ReachesMore(from: Pool, trace: seq<Action>, s: Pool, a: Action)
    requires Reaches(from, trace, s) && Enabled(s, a)
    ensures Reaches(from, trace + [a], Next(s, a))
    decreases |trace|
  {
    if trace == [] {
      assert trace + [a] == [a];
      assert Reaches(Next(from, a), [a][1..], Next(s, a));
    } else {
      ReachesMore(Next(from, trace[0]), trace[1..], s, a);
      assert (trace + [a])[1..] == trace[1..] + [a];
    }
  }
}
