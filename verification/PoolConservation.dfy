/** Where jobs are: each in exactly one place, each freed once, each accepted one processed. */
module PoolConservation {
  import opened Jobs
  import opened Folds
  import opened WorkerPool
  import opened PoolSafety
  import opened PoolWakeups
  import opened PoolLiveness

  function Count(jobs: seq<Job>, j: Job): int { multiset(jobs)[j] }

  function CountListed(th: Thread, j: Job): int { if th.Producer? then Count(th.listing, j) else 0 }

  /** Jobs a producer still has: not yet created, or created and not yet handed over. */
  function CountTodo(th: Thread, j: Job): int { if th.Producer? then Count(th.todo, j) else 0 }

  /** The job a worker has taken and not yet processed. */
  function CountUnprocessed(th: Thread, j: Job): int {
    match th
    case Worker(WSignal(job)) => if job == j then 1 else 0
    case Worker(WUnlock(job)) => if job == j then 1 else 0
    case Worker(WProcess(job)) => if job == j then 1 else 0
    case _ => 0
  }

  /** The job a worker owns. */
  function CountInHand(th: Thread, j: Job): int {
    match th
    case Worker(WFree(job)) => if job == j then 1 else 0
    case _ => CountUnprocessed(th, j)
  }

  function ListedOf(j: Job): Thread -> int { th => CountListed(th, j) }
  function TodoOf(j: Job): Thread -> int { th => CountTodo(th, j) }
  function InHandOf(j: Job): Thread -> int { th => CountInHand(th, j) }
  function UnprocessedOf(j: Job): Thread -> int { th => CountUnprocessed(th, j) }

  function Listed(s: Pool, j: Job): int { Sum(s.threads, ListedOf(j)) }
  function Todo(s: Pool, j: Job): int { Sum(s.threads, TodoOf(j)) }
  function InHand(s: Pool, j: Job): int { Sum(s.threads, InHandOf(j)) }
  function Unprocessed(s: Pool, j: Job): int { Sum(s.threads, UnprocessedOf(j)) }

  /** Every listed job is with its producer, queued, with a worker, or freed; every job taken
      from the queue is processed or about to be. */
  ghost predicate Conserved(s: Pool, j: Job) {
    && Listed(s, j) == Todo(s, j) + Count(s.data.queue, j) + InHand(s, j) + Count(s.freed, j)
    && Count(s.dequeued, j) == Count(s.processed, j) + Unprocessed(s, j)
  }

  lemma SumAfterRunExact(s: Pool, t: nat, f: Thread -> int)
    requires Enabled(s, Run(t))
    requires forall th | Asleep(th) :: f(Awake(th)) == f(th)
    ensures Sum(Next(s, Run(t)).threads, f) == Sum(s.threads, f) - f(s.threads[t]) + f(Next(s, Run(t)).threads[t])
  {
    var s' := Next(s, Run(t));
    var base := s'.threads[t := s.threads[t]];
    forall i | 0 <= i < |base| ensures f(base[i]) == f(s.threads[i]) {
      if i != t { OthersStay(s, Run(t), i); }
    }
    SumLeq(base, s.threads, f, f);
    SumLeq(s.threads, base, f, f);
    assert s'.threads == base[t := s'.threads[t]];
    SumUpdate(base, t, s'.threads[t], f);
  }

  /** A signal or a wakeup moves no job. */
  lemma SumAfterWakeup(s: Pool, a: Action, f: Thread -> int)
    requires Enabled(s, a) && !a.Run?
    requires forall th | Asleep(th) :: f(Awake(th)) == f(th)
    requires f(AfterSignal(s.threads[a.tid])) == f(s.threads[a.tid])
    ensures Sum(Next(s, a).threads, f) == Sum(s.threads, f)
  {
    SumLeq(s.threads, Next(s, a).threads, f, f);
    SumLeq(Next(s, a).threads, s.threads, f, f);
  }

  lemma CountOfAppend(jobs: seq<Job>, x: Job, j: Job)
    ensures Count(jobs + [x], j) == Count(jobs, j) + (if x == j then 1 else 0)
  {
  }

  lemma CountOfTail(jobs: seq<Job>, j: Job)
    requires jobs != []
    ensures Count(jobs, j) == Count(jobs[1..], j) + (if jobs[0] == j then 1 else 0)
  {
    assert jobs == [jobs[0]] + jobs[1..];
  }

  ghost predicate Balanced(s: Pool, s': Pool, th: Thread, th': Thread, j: Job) {
    && CountListed(th', j) == CountListed(th, j)
    && CountTodo(th', j) + Count(s'.data.queue, j) + CountInHand(th', j) + Count(s'.freed, j)
       == CountTodo(th, j) + Count(s.data.queue, j) + CountInHand(th, j) + Count(s.freed, j)
    && Count(s'.dequeued, j) - Count(s'.processed, j) - CountUnprocessed(th', j)
       == Count(s.dequeued, j) - Count(s.processed, j) - CountUnprocessed(th, j)
  }

  lemma LinkBalanced(s: Pool, t: nat, j: Job)
    requires Enabled(s, Run(t)) && s.threads[t].Producer? && s.threads[t].pc.PRecheckShutdown?
    ensures Balanced(s, Next(s, Run(t)), s.threads[t], Next(s, Run(t)).threads[t], j)
  {
    var th := s.threads[t];
    CountOfTail(th.todo, j);
    CountOfAppend(s.data.queue, th.todo[0], j);
  }

  lemma RefusedBalanced(s: Pool, t: nat, j: Job)
    requires Enabled(s, Run(t)) && s.threads[t].Producer? && s.threads[t].pc.PFree?
    ensures Balanced(s, Next(s, Run(t)), s.threads[t], Next(s, Run(t)).threads[t], j)
  {
    var th := s.threads[t];
    CountOfTail(th.todo, j);
    CountOfAppend(s.freed, th.todo[0], j);
  }

  lemma ProducerBalanced(s: Pool, t: nat, j: Job)
    requires Enabled(s, Run(t)) && s.threads[t].Producer?
    ensures Balanced(s, Next(s, Run(t)), s.threads[t], Next(s, Run(t)).threads[t], j)
  {
    var th := s.threads[t];
    if th.pc.PRecheckShutdown? {
      LinkBalanced(s, t, j);
    } else if th.pc.PFree? {
      RefusedBalanced(s, t, j);
    } else {
      var th' := Next(s, Run(t)).threads[t];
      assert th'.Producer? && th'.listing == th.listing && th'.todo == th.todo;
    }
  }

  lemma TakeBalanced(s: Pool, t: nat, j: Job)
    requires Safe(s) && Enabled(s, Run(t)) && s.threads[t] == Worker(WTake)
    ensures Balanced(s, Next(s, Run(t)), s.threads[t], Next(s, Run(t)).threads[t], j)
  {
    if s.data.queue != [] {
      CountOfTail(s.data.queue, j);
      CountOfAppend(s.dequeued, s.data.queue[0], j);
    }
  }

  lemma ProcessBalanced(s: Pool, t: nat, j: Job)
    requires Enabled(s, Run(t)) && s.threads[t].Worker? && s.threads[t].wpc.WProcess?
    ensures Balanced(s, Next(s, Run(t)), s.threads[t], Next(s, Run(t)).threads[t], j)
  {
    CountOfAppend(s.processed, s.threads[t].wpc.job, j);
    var s' := Next(s, Run(t));
    assert s' == s.(processed := s'.processed, threads := s'.threads);
  }

  lemma FreeBalanced(s: Pool, t: nat, j: Job)
    requires Enabled(s, Run(t)) && s.threads[t].Worker? && s.threads[t].wpc.WFree?
    ensures Balanced(s, Next(s, Run(t)), s.threads[t], Next(s, Run(t)).threads[t], j)
  {
    CountOfAppend(s.freed, s.threads[t].wpc.job, j);
    var s' := Next(s, Run(t));
    assert s' == s.(freed := s'.freed, threads := s'.threads);
  }

  /** The other steps move no job. */
  lemma WorkerBalanced(s: Pool, t: nat, j: Job)
    requires Enabled(s, Run(t)) && s.threads[t].Worker?
    requires !s.threads[t].wpc.WTake? && !s.threads[t].wpc.WProcess? && !s.threads[t].wpc.WFree?
    ensures Balanced(s, Next(s, Run(t)), s.threads[t], Next(s, Run(t)).threads[t], j)
  {
    var s' := Next(s, Run(t));
    assert s' == s.(mutex := s'.mutex, threads := s'.threads);
  }

  lemma ControllerBalanced(s: Pool, t: nat, j: Job)
    requires Safe(s) && Enabled(s, Run(t)) && s.threads[t].Controller?
    ensures Balanced(s, Next(s, Run(t)), s.threads[t], Next(s, Run(t)).threads[t], j)
  {
    if s.threads[t].cpc == CCleanUp {
      NothingLeftAfterJoin(s, t);
    }
  }

  lemma RunBalanced(s: Pool, t: nat, j: Job)
    requires Safe(s) && Enabled(s, Run(t))
    ensures Balanced(s, Next(s, Run(t)), s.threads[t], Next(s, Run(t)).threads[t], j)
  {
    match s.threads[t]
    case Producer(_, _, _, _, _) => ProducerBalanced(s, t, j);
    case Worker(pc) =>
      if pc.WTake? {
        TakeBalanced(s, t, j);
      } else if pc.WProcess? {
        ProcessBalanced(s, t, j);
      } else if pc.WFree? {
        FreeBalanced(s, t, j);
      } else {
        WorkerBalanced(s, t, j);
      }
    case Controller(_, _) => ControllerBalanced(s, t, j);
  }

  lemma ConservedRun(s: Pool, t: nat, s': Pool, j: Job)
    requires Enabled(s, Run(t)) && s' == Next(s, Run(t)) && |s'.threads| == |s.threads|
    requires Conserved(s, j) && Balanced(s, s', s.threads[t], s'.threads[t], j)
    ensures Conserved(s', j) && Listed(s', j) == Listed(s, j)
  {
    SumAfterRunExact(s, t, ListedOf(j));
    SumAfterRunExact(s, t, TodoOf(j));
    SumAfterRunExact(s, t, InHandOf(j));
    SumAfterRunExact(s, t, UnprocessedOf(j));
  }

  lemma WakeupKeepsProducers(s: Pool, a: Action, j: Job)
    requires Enabled(s, a) && !a.Run?
    ensures Listed(Next(s, a), j) == Listed(s, j) && Todo(Next(s, a), j) == Todo(s, j)
  {
    SumAfterWakeup(s, a, ListedOf(j));
    SumAfterWakeup(s, a, TodoOf(j));
  }

  lemma WakeupKeepsWorkers(s: Pool, a: Action, j: Job)
    requires Enabled(s, a) && !a.Run?
    ensures InHand(Next(s, a), j) == InHand(s, j) && Unprocessed(Next(s, a), j) == Unprocessed(s, j)
  {
    SumAfterWakeup(s, a, InHandOf(j));
    SumAfterWakeup(s, a, UnprocessedOf(j));
  }

  lemma ConservedWakeup(s: Pool, a: Action, j: Job)
    requires Conserved(s, j) && Enabled(s, a) && !a.Run?
    ensures Conserved(Next(s, a), j) && Listed(Next(s, a), j) == Listed(s, j)
  {
    WakeupKeepsProducers(s, a, j);
    WakeupKeepsWorkers(s, a, j);
  }

  lemma ConservedStep(s: Pool, a: Action, j: Job)
    requires Safe(s) && Conserved(s, j) && Enabled(s, a)
    ensures Conserved(Next(s, a), j) && Listed(Next(s, a), j) == Listed(s, j)
  {
    if a.Run? {
      RunBalanced(s, a.tid, j);
      ShapeStep(s, a);
      ConservedRun(s, a.tid, Next(s, a), j);
    } else {
      ConservedWakeup(s, a, j);
    }
  }

  lemma ConservedInit(s: Pool, j: Job)
    requires Init(s)
    ensures Conserved(s, j)
  {
    SumLeq(s.threads, s.threads, ListedOf(j), TodoOf(j));
    SumLeq(s.threads, s.threads, TodoOf(j), ListedOf(j));
    SumZero(s.threads, InHandOf(j));
    SumZero(s.threads, UnprocessedOf(j));
  }

  lemma {:induction false} ConservedReached(from: Pool, trace: seq<Action>, s: Pool, j: Job)
    requires Good(from) && Conserved(from, j) && Reaches(from, trace, s)
    ensures Conserved(s, j) && Listed(s, j) == Listed(from, j)
    decreases |trace|
  {
    if trace != [] {
      var next := Next(from, trace[0]);
      ConservedStep(from, trace[0], j);
      GoodReached(from, [trace[0]], next);
      ConservedReached(next, trace[1..], s, j);
    }
  }

  // ---------------------------------------------------------------- the theorems

  /** At every moment of every run each listed job is in exactly one place, and a job that
      was listed once has been freed at most once. */
  lemma {:induction false} EachJobInOnePlace(from: Pool, trace: seq<Action>, s: Pool, j: Job)
    requires Init(from) && Reaches(from, trace, s) && Listed(from, j) == 1
    ensures Todo(s, j) + Count(s.data.queue, j) + InHand(s, j) + Count(s.freed, j) == 1
    ensures Todo(s, j) >= 0 && InHand(s, j) >= 0
  {
    GoodInit(from);
    ConservedInit(from, j);
    ConservedReached(from, trace, s, j);
    SumNonNegative(s.threads, TodoOf(j));
    SumNonNegative(s.threads, InHandOf(j));
  }

  /** The queue is first in, first out and bounded, and after a shutdown accepts nothing. */
  lemma {:induction false} QueueIsFifo(from: Pool, trace: seq<Action>, s: Pool)
    requires Init(from) && Reaches(from, trace, s)
    ensures s.accepted == s.dequeued + s.data.queue
    ensures s.data.size == |s.data.queue| <= s.data.capacity
  {
    GoodInit(from);
    GoodReached(from, trace, s);
  }

  /** `dequeue_sync_job` returns null, and a worker leaves its loop, only after a shutdown and
      with nothing left in the queue; a job is refused only after a shutdown. */
  lemma {:induction false} LeavesOnlyWhenDrained(from: Pool, trace: seq<Action>, s: Pool, t: nat)
    requires Init(from) && Reaches(from, trace, s) && t < |s.threads|
    ensures s.threads[t].Worker? && (s.threads[t].wpc.WUnlockNull? || s.threads[t].wpc.WExited?)
      ==> s.data.shutdown && s.data.queue == []
    ensures s.threads[t].Producer? && (s.threads[t].pc.PUnlockRejected? || s.threads[t].rejected != [])
      ==> s.data.shutdown
  {
    GoodInit(from);
    GoodReached(from, trace, s);
    assert ThreadOk(s.data, s.threads[t]);
  }

  lemma {:induction false} NothingAcceptedAfterShutdown(from: Pool, trace: seq<Action>, s: Pool)
    requires Good(from) && from.data.shutdown && Reaches(from, trace, s)
    ensures s.accepted == from.accepted
    decreases |trace|
  {
    if trace != [] {
      var next := Next(from, trace[0]);
      assert ThreadOk(from.data, from.threads[trace[0].tid]);
      GoodReached(from, [trace[0]], next);
      StepEvolves(from, trace[0]);
      NothingAcceptedAfterShutdown(next, trace[1..], s);
    }
  }

  /** Once every worker has left its loop, whatever was accepted has been processed, each job
      as often as it was accepted, and the clean-up loop finds nothing to free. */
  lemma {:induction false} ShutdownDrains(from: Pool, trace: seq<Action>, s: Pool)
    requires Init(from) && Reaches(from, trace, s) && ExitedBelow(s, s.workers)
    ensures s.data.shutdown && s.data.queue == []
    ensures multiset(s.accepted) == multiset(s.processed)
  {
    GoodInit(from);
    GoodReached(from, trace, s);
    assert s.threads[0] == Worker(WExited);
    assert ThreadOk(s.data, s.threads[0]);
    assert s.accepted == s.dequeued;
    forall j
      ensures multiset(s.accepted)[j] == multiset(s.processed)[j]
    {
      ConservedInit(from, j);
      ConservedReached(from, trace, s, j);
      assert forall t :: 0 <= t < |s.threads| ==> CountUnprocessed(s.threads[t], j) == 0;
      SumZero(s.threads, UnprocessedOf(j));
    }
  }

  /** Provided that the processing of a job always returns: a run in which a shutdown has been
      signalled cannot go on for ever, and where it ends
      every thread has finished, everything accepted has been processed, and every listed job
      has been freed as often as it was listed. */
  lemma {:induction false} ShutdownEndsClean(from: Pool, before: seq<Action>, s: Pool, after: seq<Action>, end: Pool)
    requires Init(from) && Reaches(from, before, s) && s.data.shutdown
    requires Reaches(s, after, end)
    ensures |after| <= Measure(s)
    ensures Stuck(end) ==>
      && (forall t :: 0 <= t < |end.threads| ==> Finished(end.threads[t]))
      && end.data.queue == [] && multiset(end.accepted) == multiset(end.processed)
      && forall j :: Count(end.freed, j) == Listed(from, j)
  {
    GoodInit(from);
    GoodReached(from, before, s);
    RunsAfterShutdownEnd(s, after, end);
    MeasureNonNegative(end);
    if Stuck(end) {
      ReachesThrough(from, before, s, after, end);
      StuckOnlyWhenDone(from, before + after, end);
      ShutdownDrains(from, before + after, end);
      forall j
        ensures Count(end.freed, j) == Listed(from, j)
      {
        AllFreedAtTheEnd(from, before + after, end, j);
      }
    }
  }

  lemma {:induction false} AllFreedAtTheEnd(from: Pool, trace: seq<Action>, s: Pool, j: Job)
    requires Init(from) && Reaches(from, trace, s) && s.data.queue == []
    requires forall t :: 0 <= t < |s.threads| ==> Finished(s.threads[t])
    ensures Count(s.freed, j) == Listed(from, j)
  {
    GoodInit(from);
    ConservedInit(from, j);
    ConservedReached(from, trace, s, j);
    SumZero(s.threads, TodoOf(j));
    SumZero(s.threads, InHandOf(j));
  }

  lemma {:induction false} ReachesThrough(from: Pool, t1: seq<Action>, mid: Pool, t2: seq<Action>, s: Pool)
    requires Reaches(from, t1, mid) && Reaches(mid, t2, s)
    ensures Reaches(from, t1 + t2, s)
    decreases |t1|
  {
    if t1 == [] {
      assert t1 + t2 == t2;
    } else {
      ReachesThrough(Next(from, t1[0]), t1[1..], mid, t2, s);
      assert (t1 + t2)[1..] == t1[1..] + t2;
    }
  }

  /** What one producer got accepted is a prefix of its listing, in order; jobs are refused
      only after a shutdown. */
  lemma {:induction false} AcceptedIsPrefixOfListing(from: Pool, trace: seq<Action>, s: Pool, t: nat)
    requires Init(from) && Reaches(from, trace, s) && t < |s.threads| && s.threads[t].Producer?
    ensures s.threads[t].accepted <= s.threads[t].listing
    ensures !s.data.shutdown && Finished(s.threads[t]) ==> s.threads[t].accepted == s.threads[t].listing
  {
    GoodInit(from);
    GoodReached(from, trace, s);
    assert ThreadOk(s.data, s.threads[t]);
  }
}
