/** The job queue of the whole system: what is listed, queued and taken, and that nothing of the
    source being listed can be done before the manager lets go of it. */
module FleetJobs {
  import opened Options
  import opened FileServer
  import opened Fleet
  import opened FleetSafety
  import opened ServerRuns
  import opened Sizes

  /** How many tasks the listings have made so far. */
  function Born(s: System): int
    requires s.turn <= |s.plan|
  {
    Start(s.plan, s.turn)
      + (if s.manager.Offering? && s.turn < |s.plan| then Count(s.plan[s.turn]) - s.manager.left else 0)
  }

  /** The queue holds the waiting tasks in the order of the listings, within its capacity; so many workers are busy
      as there are. */
  ghost predicate QueueFits(s: System) {
    && |s.jobs| <= s.capacity && |Busy(s.tasks)| <= s.limit && Sizes.Distinct(s.jobs)
    && (forall i :: 0 <= i < |s.jobs| ==> s.jobs[i] == s.born - |s.jobs| + i)
    && (forall t: nat :: t in s.jobs <==> t < |s.tasks| && s.tasks[t].phase == Waiting)
    && forall t :: 0 <= t < |s.tasks| ==> (t >= s.born <==> s.tasks[t].phase == Unlisted)
  }

  /** The listings done had a directory to list and no more files than workers and queue hold. */
  ghost predicate PastFits(s: System) {
    forall i :: 0 <= i < s.turn <= |s.plan| ==>
      s.plan[i].files.Some? && s.plan[i].files.value <= s.limit + s.capacity
  }

  predicate Open(phase: Phase) { phase.Waiting? || Working(phase) }

  /** While the manager holds a client, no task of its listing is done. */
  ghost predicate CurrentOpen(s: System) {
    s.manager.Offering? && s.turn < |s.plan| ==>
      forall t :: Start(s.plan, s.turn) <= t < s.born && t < |s.tasks| ==> Open(s.tasks[t].phase)
  }

  ghost predicate JobsOk(s: System) {
    && s.limit >= 1 && s.capacity >= 1 && PlanOk(s.plan, s.tasks, |s.clients|)
    && s.turn <= |s.plan| && (!s.manager.Idle? ==> s.turn < |s.plan|)
    && s.born == Born(s) && QueueFits(s) && PastFits(s) && CurrentOpen(s)
  }

  ghost predicate Good(s: System, firsts: seq<Server>) { LinksOk(s, firsts) && JobsOk(s) }

  // ---------------------------------------------------------------- counting

  lemma {:induction false} StartGrows(plan: seq<Listing>, i: nat, j: nat)
    requires i <= j <= |plan|
    ensures Start(plan, i) <= Start(plan, j)
  {
    if i < j {
      StartGrows(plan, i, j - 1);
    }
  }

  /** Tasks still to be offered exist. */
  lemma MoreToOffer(s: System)
    requires JobsOk(s) && s.manager.Offering? && s.manager.left > 0 && s.manager.left <= Count(s.plan[s.turn])
    ensures s.born < |s.tasks| && InListing(s.plan, s.turn, s.born)
  {
    StartGrows(s.plan, s.turn + 1, |s.plan|);
  }

  /** Queued and taken tasks are different ones among those offered and not done. */
  lemma OpenTasksFit(s: System, lo: nat)
    requires QueueFits(s) && lo <= s.born <= |s.tasks|
    requires forall t :: 0 <= t < lo ==> s.tasks[t].phase.Closed?
    ensures |s.jobs| + |Busy(s.tasks)| <= s.born - lo
  {
    var both := Elements(s.jobs) + Busy(s.tasks);
    ElementsSize(s.jobs);
    assert Elements(s.jobs) !! Busy(s.tasks);
    assert |both| == |Elements(s.jobs)| + |Busy(s.tasks)|;
    assert both <= Range(lo, s.born);
    SubsetSize(both, Range(lo, s.born));
    RangeSize(lo, s.born);
  }

  /** What is open takes up room in the queue or a worker. */
  lemma OpenTasksTakeRoom(s: System, lo: nat)
    requires QueueFits(s) && lo <= s.born <= |s.tasks|
    requires forall t :: lo <= t < s.born ==> Open(s.tasks[t].phase)
    ensures s.born - lo <= s.limit + s.capacity
  {
    var both := Elements(s.jobs) + Busy(s.tasks);
    ElementsSize(s.jobs);
    assert Elements(s.jobs) !! Busy(s.tasks);
    assert |both| == |Elements(s.jobs)| + |Busy(s.tasks)|;
    assert Range(lo, s.born) <= both;
    SubsetSize(Range(lo, s.born), both);
    RangeSize(lo, s.born);
  }

  // ---------------------------------------------------------------- the steps

  lemma PlanKept(s: System, t: nat, phase: Phase)
    requires t < |s.tasks| && PlanOk(s.plan, s.tasks, |s.clients|)
    ensures PlanOk(s.plan, WithPhase(s.tasks, t, phase), |s.clients|)
  {
    var tasks := WithPhase(s.tasks, t, phase);
    assert forall u :: 0 <= u < |tasks| ==> PlacedTask(s.tasks[u], |s.clients|) ==> PlacedTask(tasks[u], |s.clients|);
  }

  /** A worker's task moves on. */
  lemma WorkerJobs(s: System, t: nat, phase: Phase, s': System)
    requires JobsOk(s) && t < |s.tasks| && Working(s.tasks[t].phase)
    requires Working(phase) || phase.Closed?
    requires phase.Closed? ==> !(s.manager.Offering? && InListing(s.plan, s.turn, t))
    requires |s'.clients| == |s.clients|
    requires s' == s.(clients := s'.clients, clock := s'.clock, tasks := WithPhase(s.tasks, t, phase))
    ensures JobsOk(s')
  {
    PlanKept(s, t, phase);
    assert Busy(s'.tasks) <= Busy(s.tasks);
    SubsetSize(Busy(s'.tasks), Busy(s.tasks));
    if s.manager.Offering? && Start(s.plan, s.turn) <= t < s.born {
      assert InListing(s.plan, s.turn, t);
    }
  }

  lemma TakeJobs(s: System)
    requires JobsOk(s) && Enabled(s, Take)
    ensures JobsOk(Next(s, Take))
  {
    PlanKept(s, s.jobs[0], Taken);
    TakeFits(s);
  }

  lemma TakeFits(s: System)
    requires QueueFits(s) && Enabled(s, Take)
    ensures s.tasks[s.jobs[0]].phase == Waiting && QueueFits(Next(s, Take))
  {
    var t, s' := s.jobs[0], Next(s, Take);
    assert t in s.jobs;
    assert Busy(s'.tasks) == Busy(s.tasks) + {t};
    TailJobs(s.jobs);
  }

  lemma TailJobs(jobs: seq<nat>)
    requires jobs != [] && Sizes.Distinct(jobs)
    ensures Sizes.Distinct(jobs[1..])
    ensures forall t :: t in jobs[1..] <==> t in jobs && t != jobs[0]
  {
    assert jobs == [jobs[0]] + jobs[1..];
    assert forall i :: 0 <= i < |jobs| - 1 ==> jobs[1..][i] == jobs[i + 1];
  }

  lemma OfferJobs(s: System)
    requires JobsOk(s) && Enabled(s, Offer)
    ensures JobsOk(Next(s, Offer))
  {
    var t, s' := s.born, Next(s, Offer);
    PlanKept(s, t, Waiting);
    assert t !in s.jobs;
    assert Busy(s'.tasks) == Busy(s.tasks);
  }

  lemma ReplyJobs(s: System)
    requires JobsOk(s) && Enabled(s, Reply)
    ensures JobsOk(Next(s, Reply))
  {
  }

  /** When the manager lets go of a client, all of its files were in the queue or with a worker. */
  lemma ReleaseJobs(s: System)
    requires JobsOk(s) && Enabled(s, Release) && s.plan[s.turn].files.Some?
    ensures JobsOk(Next(s, Release))
  {
    StartGrows(s.plan, s.turn + 1, |s.plan|);
    OpenTasksTakeRoom(s, Start(s.plan, s.turn));
  }

  /** While the manager holds the client, the client serves no task of the listing. */
  lemma CurrentNotServed(s: System, t: nat)
    requires ManagerOk(s) && JobsOk(s) && Served(s, t)
    ensures !(s.manager.Offering? && InListing(s.plan, s.turn, t))
  {
  }

  // ---------------------------------------------------------------- every run

  lemma WorkerStep(s: System, a: Action, firsts: seq<Server>)
    requires Good(s, firsts) && Enabled(s, a)
    requires a.ConnectSource? || a.ConnectTarget? || a.Transfer? || a.Refuse?
    ensures Good(Next(s, a), firsts)
  {
    var s' := Next(s, a);
    match a
    case ConnectSource(t) =>
      ConnectLinks(s, t, true, s', firsts);
      WorkerJobs(s, t, OnSource(s.clock), s');
    case ConnectTarget(t) =>
      ConnectLinks(s, t, false, s', firsts);
      WorkerJobs(s, t, OnBoth(s.tasks[t].phase.s, s.clock), s');
    case Transfer(t, chunks) =>
      var sent := Some(Series(s.tasks[t].targetPath, chunks, Complete));
      assert TaskOk(s, t);
      CloseStep(s, t, sent, s', firsts);
    case Refuse(t) => CloseStep(s, t, None, s', firsts);
  }

  lemma CloseStep(s: System, t: nat, sent: Option<Series>, s': System, firsts: seq<Server>)
    requires Good(s, firsts) && Served(s, t)
    requires sent.Some? ==> IsSeries(sent.value) && sent.value.path == s.tasks[t].targetPath
    requires s' == s.(tasks := WithPhase(s.tasks, t, Closed(s.tasks[t].phase.s, s.tasks[t].phase.t, sent)))
    ensures Good(s', firsts)
  {
    var phase := Closed(s.tasks[t].phase.s, s.tasks[t].phase.t, sent);
    ManagerKept(s, s');
    PhaseLinks(s, t, phase, s', firsts);
    CurrentNotServed(s, t);
    WorkerJobs(s, t, phase, s');
  }

  lemma ManagerStep(s: System, a: Action, firsts: seq<Server>)
    requires Good(s, firsts) && Enabled(s, a) && (a.Ask? || a.Reply? || a.Offer? || a.Release?)
    ensures Good(Next(s, a), firsts)
  {
    var s' := Next(s, a);
    match a
    case Ask => AskLinks(s, firsts);
    case Reply =>
      ManagerLinks(s, s', firsts);
      ReplyJobs(s);
    case Offer =>
      PhaseLinks(s, s.born, Waiting, s', firsts);
      OfferJobs(s);
    case Release =>
      ManagerLinks(s, s', firsts);
      ReleaseJobs(s);
  }

  lemma GoodStep(s: System, a: Action, firsts: seq<Server>)
    requires Good(s, firsts) && Enabled(s, a)
    ensures Good(Next(s, a), firsts)
  {
    if a.Ask? || a.Reply? || a.Offer? || a.Release? {
      ManagerStep(s, a, firsts);
    } else if a.Take? {
      ManagerKept(s, Next(s, a));
      PhaseLinks(s, s.jobs[0], Taken, Next(s, a), firsts);
      TakeJobs(s);
    } else if a.Hangup? {
      HangupLinks(s, a.c, firsts);
    } else {
      WorkerStep(s, a, firsts);
    }
  }

  lemma GoodInit(s: System) returns (firsts: seq<Server>)
    requires Init(s)
    ensures Good(s, firsts) && |firsts| == |s.clients|
    ensures forall c :: 0 <= c < |s.clients| ==> firsts[c] == s.clients[c].server
  {
    firsts := seq(|s.clients|, c requires 0 <= c < |s.clients| => s.clients[c].server);
    assert Busy(s.tasks) == {};
  }

  /** What a run does not change. */
  predicate SamePlan(s: System, s': System) {
    s'.plan == s.plan && s'.limit == s.limit && s'.capacity == s.capacity && |s'.tasks| == |s.tasks|
    && |s'.clients| == |s.clients|
  }

  lemma {:induction false} GoodReached(from: System, trace: seq<Action>, s: System, firsts: seq<Server>)
    requires Good(from, firsts) && Reaches(from, trace, s)
    ensures Good(s, firsts) && SamePlan(from, s)
    decreases |trace|
  {
    if trace != [] {
      GoodStep(from, trace[0], firsts);
      GoodReached(Next(from, trace[0]), trace[1..], s, firsts);
    }
  }
}
