/** When may a pool be destroyed? `destroy_thread_pool` ends by freeing the mutex, the condition
    variables and the pool itself (`src/thread_pool.c:100-106`); whatever thread uses the pool
    after that uses freed memory. */
module PoolDestruction {
  import opened Options
  import opened WorkerPool
  import opened PoolSafety
  import opened PoolWakeups
  import opened PoolLiveness
  import opened PoolSections

  /** The step uses the pool. Creating a job, and freeing a refused one, does not. */
  predicate Touches(s: Pool, a: Action)
    requires Enabled(s, a)
  {
    !(a.Run? && s.threads[a.tid].Producer? && (s.threads[a.tid].pc.PReady? || s.threads[a.tid].pc.PFree?))
  }

  /** The thread will not use the pool again: it has finished, or is a producer with nothing
      left but to free its last job, which has been refused. */
  predicate Gone(th: Thread) {
    Finished(th) || (th.Producer? && th.pc.PFree? && |th.todo| == 1)
  }

  ghost predicate AllGone(s: Pool) {
    forall t :: 0 <= t < |s.threads| ==> Gone(s.threads[t])
  }

  /** No continuation uses the pool. */
  ghost predicate Released(s: Pool) {
    forall later: seq<Action>, s': Pool, a: Action ::
      Reaches(s, later, s') && Enabled(s', a) ==> !Touches(s', a)
  }

  ghost predicate Destroyed(s: Pool) {
    exists d :: 0 <= d < |s.threads| && s.threads[d] == Controller(CDone, Destroy)
  }

  lemma GoneStep(s: Pool, a: Action)
    requires AllGone(s) && Enabled(s, a)
    ensures !Touches(s, a) && AllGone(Next(s, a))
  {
    assert Gone(s.threads[a.tid]);
    assert a.Run? && s.threads[a.tid].Producer? && s.threads[a.tid].pc.PFree?;
  }

  lemma {:induction false} GoneStays(s: Pool, later: seq<Action>, s': Pool)
    requires AllGone(s) && Reaches(s, later, s')
    ensures AllGone(s')
    decreases |later|
  {
    if later != [] {
      GoneStep(s, later[0]);
      GoneStays(Next(s, later[0]), later[1..], s');
    }
  }

  /** A destroyed pool has been shut down and its workers have left. */
  lemma DestroyedMeans(s: Pool)
    requires Good(s) && Destroyed(s)
    ensures s.data.shutdown && ExitedBelow(s, s.workers)
  {
    var d :| 0 <= d < |s.threads| && s.threads[d] == Controller(CDone, Destroy);
    assert JoinOk(s, s.threads[d]) && ThreadOk(s.data, s.threads[d]);
  }

  /** The thread inside the critical section is about to use the pool. */
  lemma HolderTouches(s: Pool) returns (a: Action)
    requires Good(s) && s.mutex.Some?
    ensures Enabled(s, a) && Touches(s, a)
  {
    var t := s.mutex.value;
    assert ThreadOk(s.data, s.threads[t]) && Holds(s.threads[t]);
    if NobodyToWake(s, s.threads[t]) {
      a := Run(t);
    } else {
      var w :| 0 <= w < |s.threads| && Wakes(s.threads[t], s.threads[w]);
      a := Signal(t, w);
    }
  }

  lemma TouchesLater(s: Pool, later: seq<Action>, s': Pool, a: Action)
    requires Reaches(s, later, s') && Enabled(s', a) && Touches(s', a)
    ensures !Released(s)
  {
  }

  /** A producer that still has a job to offer, with the mutex free. */
  lemma OffersNext(from: Pool, before: seq<Action>, s: Pool, t: nat)
    requires Reaches(from, before, s) && s.mutex == None && t < |s.threads|
    requires s.threads[t].Producer? && s.threads[t].pc.PReady? && s.threads[t].todo != []
    ensures !Released(from)
  {
    var trace, s' := OneMore(from, before, s, t);
    TouchesLater(from, trace, s', Run(t));
  }

  lemma NotGoneTouches(s: Pool, t: nat)
    requires Good(s) && Destroyed(s) && s.mutex == None && t < |s.threads| && !Gone(s.threads[t])
    ensures !Released(s)
  {
    DestroyedMeans(s);
    var th := s.threads[t];
    assert ThreadOk(s.data, th) && !Holds(th);
    assert Asleep(th) ==> SomeAsleep(s, WorkerAsleep) || SomeAsleep(s, ProducerAsleep);
    if th.Producer? && th.pc.PReady? {
      OffersNext(s, [], s, t);
    } else if th.Producer? && th.pc.PFree? {
      var trace, s' := OneMore(s, [], s, t);
      OffersNext(s, trace, s', t);
    } else {
      assert !Asleep(th);
      TouchesLater(s, [], s, Run(t));
    }
  }

  /** A destroyed pool is safe if and only if every other thread was done with it by then. */
  lemma {:induction false} DestructionIsSafeIff(from: Pool, trace: seq<Action>, s: Pool)
    requires Init(from) && Reaches(from, trace, s) && Destroyed(s)
    ensures Released(s) <==> AllGone(s)
  {
    GoodInit(from);
    GoodReached(from, trace, s);
    if AllGone(s) {
      forall later: seq<Action>, s': Pool, a: Action | Reaches(s, later, s') && Enabled(s', a)
        ensures !Touches(s', a)
      {
        GoneStays(s, later, s');
        GoneStep(s', a);
      }
    } else if s.mutex.Some? {
      var a := HolderTouches(s);
      TouchesLater(s, [], s, a);
    } else {
      var t :| 0 <= t < |s.threads| && !Gone(s.threads[t]);
      NotGoneTouches(s, t);
    }
  }

  // ---------------------------------------------------------------- what a caller can do

  /** The destroying thread is the only one left beside the workers. */
  ghost predicate Alone(s: Pool, d: nat) {
    && s.workers <= d < |s.threads| && s.threads[d].Controller? && s.threads[d].kind == Destroy
    && forall t :: s.workers <= t < |s.threads| && t != d ==>
         Finished(s.threads[t]) && (s.threads[t].Controller? ==> s.threads[t].kind != Destroy)
  }

  lemma AloneStep(s: Pool, a: Action, d: nat)
    requires Good(s) && Alone(s, d) && Enabled(s, a)
    ensures Alone(Next(s, a), d)
  {
    StepKeepsThreads(s, a);
    assert a.tid < s.workers || a.tid == d;
    forall t | s.workers <= t < |s.threads| && (t != a.tid || !a.Run?)
      ensures Next(s, a).threads[t] == s.threads[t]
    {
      if t != a.tid {
        OthersStay(s, a, t);
      }
    }
  }

  lemma {:induction false} AloneStays(s: Pool, later: seq<Action>, s': Pool, d: nat)
    requires Good(s) && Alone(s, d) && Reaches(s, later, s')
    ensures Good(s') && Alone(s', d)
    decreases |later|
  {
    if later != [] {
      GoodReached(s, [later[0]], Next(s, later[0]));
      AloneStep(s, later[0], d);
      AloneStays(Next(s, later[0]), later[1..], s', d);
    }
  }

  /** A pool destroyed by the last thread that uses it, apart from its workers, is safe: this is
      what a caller can see to before the call. */
  lemma {:induction false} SafeWhenAlone(from: Pool, before: seq<Action>, s: Pool, d: nat, later: seq<Action>, s': Pool)
    requires Init(from) && Reaches(from, before, s) && Alone(s, d)
    requires Reaches(s, later, s') && Destroyed(s')
    ensures Released(s')
  {
    GoodInit(from);
    GoodReached(from, before, s);
    AloneStays(s, later, s', d);
    DestroyedMeans(s');
    assert s'.threads[d] == Controller(CDone, Destroy);
    forall later': seq<Action>, s'': Pool, a: Action | Reaches(s', later', s'') && Enabled(s'', a)
      ensures !Touches(s'', a)
    {
      GoneStays(s', later', s'');
      GoneStep(s'', a);
    }
  }

  // ---------------------------------------------------------------- a run that fails

  lemma WakeNobody(threads: seq<Thread>, sleeps: Thread -> bool)
    requires forall t :: 0 <= t < |threads| ==> !Asleep(threads[t])
    ensures WakeAll(threads, sleeps) == threads
  {
  }

  /** The destroying thread sets the flag and broadcasts before anybody else has done anything. */
  lemma ShutsDownFirst(from: Pool, d: nat) returns (trace: seq<Action>, s: Pool)
    requires Init(from) && d < |from.threads| && from.threads[d] == Controller(CLock, Destroy)
    ensures Reaches(from, trace, s)
    ensures s == from.(data := from.data.(shutdown := true),
                       threads := from.threads[d := Controller(CJoin(0), Destroy)])
  {
    trace, s := OneMore(from, [], from, d);
    trace, s := OneMore(from, trace, s, d);
    WakeNobody(s.threads, WorkerAsleep);
    trace, s := OneMore(from, trace, s, d);
    WakeNobody(s.threads, ProducerAsleep);
    trace, s := OneMore(from, trace, s, d);
    trace, s := OneMore(from, trace, s, d);
    assert s.threads == from.threads[d := Controller(CJoin(0), Destroy)];
  }

  lemma WorkerLeaves(from: Pool, trace: seq<Action>, s: Pool, w: nat) returns (trace': seq<Action>, s': Pool)
    requires Reaches(from, trace, s) && s.mutex == None
    requires s.data.shutdown && s.data.size == 0
    requires w < |s.threads| && s.threads[w] == Worker(WLock)
    ensures Reaches(from, trace', s') && s' == s.(threads := s.threads[w := Worker(WExited)])
  {
    trace', s' := OneMore(from, trace, s, w);
    trace', s' := OneMore(from, trace', s', w);
    trace', s' := OneMore(from, trace', s', w);
    trace', s' := OneMore(from, trace', s', w);
  }

  lemma {:induction false} WorkersLeave(from: Pool, trace: seq<Action>, s: Pool, n: nat)
    returns (trace': seq<Action>, s': Pool)
    requires Reaches(from, trace, s) && s.mutex == None && s.data.shutdown && s.data.size == 0
    requires n <= |s.threads| && forall w :: 0 <= w < n ==> s.threads[w] == Worker(WLock)
    ensures Reaches(from, trace', s') && s' == s.(threads := s'.threads) && |s'.threads| == |s.threads|
    ensures forall t :: 0 <= t < |s.threads| ==>
      s'.threads[t] == if t < n then Worker(WExited) else s.threads[t]
  {
    if n == 0 {
      trace', s' := trace, s;
    } else {
      trace', s' := WorkersLeave(from, trace, s, n - 1);
      trace', s' := WorkerLeaves(from, trace', s', n - 1);
    }
  }

  lemma {:induction false} Joins(from: Pool, trace: seq<Action>, s: Pool, d: nat, n: nat)
    returns (trace': seq<Action>, s': Pool)
    requires Reaches(from, trace, s) && n <= s.workers <= d < |s.threads| && ExitedBelow(s, s.workers)
    requires s.threads[d] == Controller(CJoin(n), Destroy)
    ensures Reaches(from, trace', s')
    ensures s' == s.(threads := s.threads[d := Controller(CJoin(s.workers), Destroy)])
    decreases s.workers - n
  {
    if n == s.workers {
      trace', s' := trace, s;
    } else {
      trace', s' := OneMore(from, trace, s, d);
      trace', s' := Joins(from, trace', s', d, n + 1);
    }
  }

  /** Behind the join loop, with nothing queued. */
  lemma Frees(from: Pool, trace: seq<Action>, s: Pool, d: nat) returns (trace': seq<Action>, s': Pool)
    requires Reaches(from, trace, s) && d < |s.threads| && s.mutex == None && s.data.queue == []
    requires s.threads[d] == Controller(CJoin(s.workers), Destroy)
    ensures Reaches(from, trace', s') && s' == s.(threads := s.threads[d := Controller(CDone, Destroy)])
  {
    trace', s' := OneMore(from, trace, s, d);
    trace', s' := OneMore(from, trace', s', d);
    trace', s' := OneMore(from, trace', s', d);
    trace', s' := OneMore(from, trace', s', d);
  }

  /** The code does not see to it: with any number of workers, a destroying thread that is faster
      than a producer leaves the producer with a pool that has been freed. */
  lemma {:induction false} UnsafeDestruction(from: Pool, d: nat, p: nat) returns (trace: seq<Action>, s: Pool)
    requires Init(from) && d < |from.threads| && from.threads[d] == Controller(CLock, Destroy)
    requires p < |from.threads| && from.threads[p].Producer? && from.threads[p].todo != []
    ensures Reaches(from, trace, s) && Destroyed(s) && !Released(s)
  {
    trace, s := ShutsDownFirst(from, d);
    trace, s := WorkersLeave(from, trace, s, from.workers);
    trace, s := Joins(from, trace, s, d, 0);
    trace, s := Frees(from, trace, s, d);
    assert s.threads[d] == Controller(CDone, Destroy) && s.threads[p] == from.threads[p];
    DestructionIsSafeIff(from, trace, s);
    assert !Gone(s.threads[p]);
  }
}
