/** What every run of the whole system comes to: it ends, with all work done, with the manager
    waiting for ever for a listing, or in a circular wait; which of them, and exactly when. */
module FleetRuns {
  import opened Options
  import opened FileServer
  import opened Fleet
  import opened FleetJobs
  import opened FleetSafety
  import opened Folds
  import opened ServerRuns

  /** No step of the run fails. */
  ghost predicate Clean(from: System, trace: seq<Action>)
    decreases |trace|
  {
    trace == [] || (Enabled(from, trace[0]) && !Failing(from, trace[0]) && Clean(Next(from, trace[0]), trace[1..]))
  }

  // ---------------------------------------------------------------- chains of waiting

  /** Nothing can happen any more but failures. */
  ghost predicate Quiet(s: System) {
    forall a: Action :: Enabled(s, a) ==> Failing(s, a)
  }

  /** Nothing can happen any more but failures and the listing of the next source. */
  ghost predicate Resting(s: System) {
    forall a: Action :: Enabled(s, a) ==> a.Ask? || Failing(s, a)
  }

  /** A task that is served by its source client can be brought to its end. */
  lemma ServedMeansProgress(s: System, t: nat)
    requires Resting(s)
    ensures !Served(s, t)
  {
    if Served(s, t) {
      assert Enabled(s, Refuse(t));
      var file := SourceFile(s, t).value;
      var chunks := if file == "" then [] else [file];
      assert Concat(chunks) == file;
      assert Enabled(s, Transfer(t, chunks));
    }
  }

  /** In a resting state what a client is serving is the manager, or a worker that waits itself. */
  lemma RestingHead(s: System, firsts: seq<Server>, c: nat)
    requires Good(s, firsts) && Resting(s) && c < |s.clients| && s.clients[c].queue != []
    ensures match s.clients[c].queue[0]
            case OfManager(k) => Holding(s) == Some((k, c))
            case OfTask(u, _, k) => u < |s.tasks| && s.tasks[u].phase.OnBoth? && s.tasks[u].phase.s <= k
  {
    var head := s.clients[c].queue[0];
    assert ClientOk(s, c, firsts[c]);
    assert LinkOk(head, c, s.tasks, s.clock, Holding(s));
    assert !Enabled(s, Hangup(c));
    if head.OfTask? {
      assert TaskOk(s, head.task);
      assert !Enabled(s, ConnectTarget(head.task));
    }
  }

  /** The connection a task waits behind was made before its own. */
  lemma HeadIsEarlier(s: System, firsts: seq<Server>, t: nat)
    requires Good(s, firsts) && t < |s.tasks| && s.tasks[t].phase.OnBoth? && !Served(s, t)
    ensures s.tasks[t].source < |s.clients| && s.clients[s.tasks[t].source].queue != []
    ensures s.clients[s.tasks[t].source].queue[0].ticket < s.tasks[t].phase.s
  {
    var task := s.tasks[t];
    assert TaskOk(s, t);
    assert ClientOk(s, task.source, firsts[task.source]);
    var queue := s.clients[task.source].queue;
    var i :| 0 <= i < |queue| && queue[i] == OfTask(t, true, task.phase.s);
    assert i > 0;
  }

  /** Whoever waits for its source client waits behind a connection that was made earlier, and
      the owner of that one, if it is a worker, connected to its own source earlier still. So
      the chain ends, and it can only end at the manager. */
  lemma {:induction false} ChainsEndAtManager(s: System, firsts: seq<Server>, t: nat)
    requires Good(s, firsts) && Resting(s) && t < |s.tasks| && s.tasks[t].phase.OnBoth?
    ensures WaitsForManager(s, t)
    decreases s.tasks[t].phase.s
  {
    ServedMeansProgress(s, t);
    HeadIsEarlier(s, firsts, t);
    var head := s.clients[s.tasks[t].source].queue[0];
    RestingHead(s, firsts, s.tasks[t].source);
    if head.OfTask? {
      ChainsEndAtManager(s, firsts, head.task);
    }
  }

  lemma {:induction false} ManagerCameFirst(s: System, firsts: seq<Server>, t: nat)
    requires Good(s, firsts) && WaitsForManager(s, t)
    ensures Holding(s).Some? && Holding(s).value.0 < s.tasks[t].phase.s
    decreases s.tasks[t].phase.s
  {
    var head := s.clients[s.tasks[t].source].queue[0];
    if head.OfTask? {
      ManagerCameFirst(s, firsts, head.task);
    } else {
      assert TaskOk(s, t);
      HeadIsEarlier(s, firsts, t);
    }
  }

  // ---------------------------------------------------------------- the three ends

  lemma BusyWaits(s: System, firsts: seq<Server>)
    requires Good(s, firsts) && Resting(s)
    ensures forall t :: t in Busy(s.tasks) ==> WaitsForManager(s, t)
  {
    forall t | t in Busy(s.tasks)
      ensures WaitsForManager(s, t)
    {
      assert !Enabled(s, ConnectSource(t)) && !Enabled(s, ConnectTarget(t));
      ChainsEndAtManager(s, firsts, t);
    }
  }

  lemma NoJobsLeft(s: System, firsts: seq<Server>)
    requires Good(s, firsts) && Resting(s) && Busy(s.tasks) == {}
    ensures s.jobs == []
  {
    if s.jobs != [] {
      assert s.jobs[0] in s.jobs;
      assert Enabled(s, Take);
    }
  }

  /** A manager between two listings, with all jobs so far done and no connection left. */
  ghost predicate Settled(s: System) {
    && s.manager == Idle && s.jobs == []
    && (forall t :: 0 <= t < s.born && t < |s.tasks| ==> s.tasks[t].phase.Closed?)
    && forall c :: 0 <= c < |s.clients| ==> s.clients[c].queue == []
  }

  lemma IdleMeansSettled(s: System, firsts: seq<Server>)
    requires Good(s, firsts) && Resting(s) && s.manager == Idle
    ensures Settled(s)
  {
    BusyWaits(s, firsts);
    forall t | t in Busy(s.tasks)
      ensures false
    {
      ManagerCameFirst(s, firsts, t);
    }
    NoJobsLeft(s, firsts);
    forall t | 0 <= t < s.born && t < |s.tasks|
      ensures s.tasks[t].phase.Closed?
    {
      assert t !in Busy(s.tasks) && t !in s.jobs;
    }
    forall c | 0 <= c < |s.clients|
      ensures s.clients[c].queue == []
    {
      if s.clients[c].queue != [] { RestingHead(s, firsts, c); }
    }
  }

  /** Workers never block each other: while the manager is not listing, every job comes to its
      end, although every worker holds two clients and every client serves one connection. */
  lemma {:induction false} WorkersNeverBlockEachOther(from: System, trace: seq<Action>, s: System)
    requires Init(from) && Reaches(from, trace, s) && Resting(s) && s.manager == Idle
    ensures Settled(s)
  {
    var firsts := GoodInit(from);
    GoodReached(from, trace, s, firsts);
    IdleMeansSettled(s, firsts);
  }

  lemma SettledMeansDone(s: System)
    requires JobsOk(s) && Settled(s) && s.turn == |s.plan|
    ensures Done(s)
  {
  }

  lemma AskingMeansHung(s: System, firsts: seq<Server>)
    requires Good(s, firsts) && Resting(s) && s.manager.Asking?
    ensures Hung(s)
  {
    var c := s.plan[s.turn].client;
    assert ClientOk(s, c, firsts[c]);
    var queue := s.clients[c].queue;
    var i :| 0 <= i < |queue| && queue[i] == OfManager(s.manager.k);
    RestingHead(s, firsts, c);
    if queue[0].OfTask? {
      assert queue[0].ticket < s.manager.k;
      ChainsEndAtManager(s, firsts, queue[0].task);
      ManagerCameFirst(s, firsts, queue[0].task);
    }
    assert !Enabled(s, Reply);
  }

  lemma OfferingMeansDeadlock(s: System, firsts: seq<Server>)
    requires Good(s, firsts) && Resting(s) && s.manager.Offering?
    ensures Deadlocked(s)
  {
    assert !Enabled(s, Release);
    MoreToOffer(s);
    assert !Enabled(s, Offer);
    assert s.jobs[0] in s.jobs;
    assert !Enabled(s, Take);
    BusyWaits(s, firsts);
  }

  /** Where nothing but failures can still happen, all work is done, or the manager waits for
      the listing of a directory that cannot be opened, or the system is in a circular wait: the
      manager holds a client and waits for room in the full queue, and every worker waits for
      that client. */
  lemma {:induction false} ThreeEnds(from: System, trace: seq<Action>, s: System)
    requires Init(from) && Reaches(from, trace, s) && Quiet(s)
    ensures Done(s) || Hung(s) || Deadlocked(s)
  {
    var firsts := GoodInit(from);
    GoodReached(from, trace, s, firsts);
    match s.manager
    case Idle =>
      IdleMeansSettled(s, firsts);
      assert !Enabled(s, Ask);
      SettledMeansDone(s);
    case Asking(_) => AskingMeansHung(s, firsts);
    case Offering(_, _) => OfferingMeansDeadlock(s, firsts);
  }

  // ---------------------------------------------------------------- which end, exactly

  /** Every directory can be opened, and none has more files than the workers and the queue
      hold together. */
  ghost predicate AllFit(s: System) {
    forall i :: 0 <= i < |s.plan| ==>
      s.plan[i].files.Some? && s.plan[i].files.value <= s.limit + s.capacity
  }

  lemma {:induction false} SamePlanReached(from: System, trace: seq<Action>, s: System)
    requires Init(from) && Reaches(from, trace, s)
    ensures SamePlan(from, s) && (s.manager.Offering? ==> s.turn < |s.plan| && s.plan[s.turn].files.Some?)
  {
    var firsts := GoodInit(from);
    GoodReached(from, trace, s, firsts);
  }

  /** Only then can a run be done. */
  lemma {:induction false} DoneMeansAllFit(from: System, trace: seq<Action>, s: System)
    requires Init(from) && Reaches(from, trace, s) && Done(s)
    ensures AllFit(from)
  {
    var firsts := GoodInit(from);
    GoodReached(from, trace, s, firsts);
    assert s.turn == |s.plan|;
  }

  /** And if the files of all listings together fit, every run is done where it ends. */
  lemma {:induction false} SmallPlansGetDone(from: System, trace: seq<Action>, s: System)
    requires Init(from) && Reaches(from, trace, s) && Quiet(s)
    requires AllFit(from) && |from.tasks| <= from.limit + from.capacity
    ensures Done(s)
  {
    var firsts := GoodInit(from);
    GoodReached(from, trace, s, firsts);
    ThreeEnds(from, trace, s);
    if Deadlocked(s) {
      MoreToOffer(s);
      OpenTasksFit(s, 0);
    }
  }

  /** One listing into an empty pool: the work gets done if and only if the directory can be
      opened and its files fit into the workers and the queue; otherwise the manager waits for
      the listing for ever, or the system ends in a circular wait. */
  lemma {:induction false} OneListingIff(from: System, trace: seq<Action>, s: System)
    requires Init(from) && Reaches(from, trace, s) && Quiet(s) && |from.plan| == 1
    ensures Done(s) <==> from.plan[0].files.Some? && from.plan[0].files.value <= from.limit + from.capacity
    ensures Hung(s) <==> from.plan[0].files.None?
    ensures Deadlocked(s) <==> from.plan[0].files.Some? && from.plan[0].files.value > from.limit + from.capacity
  {
    SamePlanReached(from, trace, s);
    ThreeEnds(from, trace, s);
    assert Start(from.plan, 1) == Start(from.plan, 0) + Count(from.plan[0]);
    if Done(s) {
      DoneMeansAllFit(from, trace, s);
    }
    if AllFit(from) {
      SmallPlansGetDone(from, trace, s);
    }
  }

  // ---------------------------------------------------------------- the bad ends are for ever

  /** Served tasks do not wait for the manager. */
  lemma WaitingIsNotServed(s: System, t: nat)
    requires WaitsForManager(s, t)
    ensures !Served(s, t)
  {
  }

  /** In a circular wait no client in it can hang up. */
  lemma {:induction false} WaitingStays(s: System, c: nat, t: nat)
    requires Enabled(s, Hangup(c)) && WaitsForManager(s, t)
    ensures WaitsForManager(Next(s, Hangup(c)), t)
    decreases s.tasks[t].phase.s
  {
    var head := s.clients[s.tasks[t].source].queue[0];
    if head.OfTask? {
      WaitingStays(s, c, head.task);
    }
  }

  lemma OnlyHangups(s: System, a: Action)
    requires Deadlocked(s) && Enabled(s, a)
    ensures a.Hangup?
  {
    assert forall t :: 0 <= t < |s.tasks| && Working(s.tasks[t].phase) ==> WaitsForManager(s, t);
    match a
    case Transfer(t, _) => WaitingIsNotServed(s, t);
    case Refuse(t) => WaitingIsNotServed(s, t);
    case _ =>
  }

  /** A circular wait never resolves: not even a failure can end it. */
  lemma {:induction false} DeadlockIsForEver(s: System, trace: seq<Action>, s': System)
    requires Deadlocked(s) && Reaches(s, trace, s')
    ensures Deadlocked(s') && s'.manager == s.manager && s'.jobs == s.jobs && s'.tasks == s.tasks
    decreases |trace|
  {
    if trace != [] {
      var a := trace[0];
      OnlyHangups(s, a);
      var next := Next(s, a);
      forall t | t in Busy(next.tasks)
        ensures WaitsForManager(next, t)
      {
        WaitingStays(s, a.c, t);
      }
      DeadlockIsForEver(next, trace[1..], s');
    }
  }

  /** A manager that has asked for a directory that cannot be opened never does anything again. */
  lemma {:induction false} MissingDirectoryHangs(s: System, trace: seq<Action>, s': System)
    requires s.manager.Asking? && s.turn < |s.plan| && s.plan[s.turn].files.None? && Reaches(s, trace, s')
    ensures s'.manager == s.manager && s'.turn == s.turn && s'.born == s.born
    decreases |trace|
  {
    if trace != [] {
      MissingDirectoryHangs(Next(s, trace[0]), trace[1..], s');
    }
  }

  // ---------------------------------------------------------------- every run ends

  function Rank(task: Task): int {
    match task.phase
    case Unlisted => 8
    case Waiting => 7
    case Taken => 6
    case OnSource(_) => 4
    case OnBoth(_, _) => 2
    case Closed(_, _, _) => 0
  }

  function Queued(client: Party): int { |client.queue| }

  function ManagerRank(s: System): int {
    4 * (|s.plan| - s.turn) - (match s.manager case Idle => 0 case Asking(_) => 2 case Offering(_, _) => 3)
  }

  function Measure(s: System): int { Sum(s.tasks, Rank) + Sum(s.clients, Queued) + ManagerRank(s) }

  lemma ArriveMeasure(clients: seq<Party>, c: nat, link: Link)
    ensures Sum(Arrive(clients, c, link), Queued) <= Sum(clients, Queued) + 1
  {
    if c < |clients| {
      SumUpdate(clients, c, clients[c].(queue := clients[c].queue + [link]), Queued);
    }
  }

  lemma PhaseMeasure(tasks: seq<Task>, t: nat, phase: Phase)
    requires t < |tasks|
    ensures Sum(WithPhase(tasks, t, phase), Rank)
      == Sum(tasks, Rank) - Rank(tasks[t]) + Rank(tasks[t].(phase := phase))
  {
    SumUpdate(tasks, t, tasks[t].(phase := phase), Rank);
  }

  lemma ManagerMeasureFalls(s: System, a: Action)
    requires JobsOk(s) && Enabled(s, a) && (a.Ask? || a.Reply? || a.Offer? || a.Release? || a.Take?)
    ensures Measure(Next(s, a)) < Measure(s)
  {
    match a
    case Ask => ArriveMeasure(s.clients, s.plan[s.turn].client, OfManager(s.clock));
    case Offer => PhaseMeasure(s.tasks, s.born, Waiting);
    case Take =>
      assert s.jobs[0] in s.jobs;
      PhaseMeasure(s.tasks, s.jobs[0], Taken);
    case _ =>
  }

  lemma ConnectMeasureFalls(s: System, t: nat, phase: Phase, c: nat, link: Link)
    requires t < |s.tasks| && Rank(s.tasks[t].(phase := phase)) <= Rank(s.tasks[t]) - 2
    ensures Sum(WithPhase(s.tasks, t, phase), Rank) + Sum(Arrive(s.clients, c, link), Queued)
      < Sum(s.tasks, Rank) + Sum(s.clients, Queued)
  {
    PhaseMeasure(s.tasks, t, phase);
    ArriveMeasure(s.clients, c, link);
  }

  lemma CloseMeasureFalls(s: System, a: Action)
    requires Enabled(s, a) && (a.Transfer? || a.Refuse? || a.Hangup?)
    ensures Measure(Next(s, a)) < Measure(s)
  {
    match a
    case Transfer(t, _) => PhaseMeasure(s.tasks, t, Next(s, a).tasks[t].phase);
    case Refuse(t) => PhaseMeasure(s.tasks, t, Next(s, a).tasks[t].phase);
    case Hangup(c) => SumUpdate(s.clients, c, Next(s, a).clients[c], Queued);
    case _ =>
  }

  lemma {:induction false} MeasureFalls(s: System, a: Action)
    requires JobsOk(s) && Enabled(s, a)
    ensures Measure(Next(s, a)) < Measure(s)
  {
    match a
    case ConnectSource(t) =>
      ConnectMeasureFalls(s, t, OnSource(s.clock), s.tasks[t].source, OfTask(t, true, s.clock));
    case ConnectTarget(t) =>
      var phase := OnBoth(s.tasks[t].phase.s, s.clock);
      ConnectMeasureFalls(s, t, phase, s.tasks[t].target, OfTask(t, false, s.clock));
    case Transfer(_, _) => CloseMeasureFalls(s, a);
    case Refuse(_) => CloseMeasureFalls(s, a);
    case Hangup(c) => CloseMeasureFalls(s, a);
    case _ => ManagerMeasureFalls(s, a);
  }

  lemma MeasureNonNegative(s: System)
    requires JobsOk(s)
    ensures Measure(s) >= 0
  {
    SumNonNegative(s.tasks, Rank);
    SumNonNegative(s.clients, Queued);
  }

  lemma {:induction false} StepsAreBounded(from: System, trace: seq<Action>, s: System, firsts: seq<Server>)
    requires Good(from, firsts) && Reaches(from, trace, s)
    ensures |trace| <= Measure(from)
    decreases |trace|
  {
    if trace == [] {
      MeasureNonNegative(from);
    } else {
      MeasureFalls(from, trace[0]);
      GoodStep(from, trace[0], firsts);
      StepsAreBounded(Next(from, trace[0]), trace[1..], s, firsts);
    }
  }

  lemma {:induction false} EightEach(tasks: seq<Task>)
    ensures Sum(tasks, Rank) <= 8 * |tasks|
  {
    if tasks != [] {
      EightEach(tasks[1..]);
    }
  }

  /** Every run ends: it has at most eight steps for each file and four for each listing. */
  lemma {:induction false} RunsEnd(from: System, trace: seq<Action>, s: System)
    requires Init(from) && Reaches(from, trace, s)
    ensures |trace| <= 8 * |from.tasks| + 4 * |from.plan|
  {
    var firsts := GoodInit(from);
    StepsAreBounded(from, trace, s, firsts);
    EightEach(from.tasks);
    SumZero(from.clients, Queued);
  }

  lemma {:induction false} ReachesMore(from: System, trace: seq<Action>, s: System, a: Action)
    requires Reaches(from, trace, s) && Enabled(s, a)
    ensures Reaches(from, trace + [a], Next(s, a))
    decreases |trace|
  {
    if trace == [] {
      assert trace + [a] == [a];
      assert Reaches(Next(from, a), [a][1..], Next(s, a));
    } else {
      ReachesMore(Next(from, trace[0]), trace[1..], s, a);
      assert (trace + [a])[1..] == trace[1..] + [a];
    }
  }

  lemma {:induction false} CleanMore(from: System, trace: seq<Action>, s: System, a: Action)
    requires Clean(from, trace) && Reaches(from, trace, s) && Enabled(s, a) && !Failing(s, a)
    ensures Clean(from, trace + [a])
    decreases |trace|
  {
    if trace == [] {
      assert trace + [a] == [a];
      assert Clean(Next(from, a), [a][1..]);
    } else {
      CleanMore(Next(from, trace[0]), trace[1..], s, a);
      assert (trace + [a])[1..] == trace[1..] + [a];
    }
  }

  /** From every reachable state the system can be run to such an end. */
  lemma {:induction false} RunToTheEnd(from: System, trace: seq<Action>, s: System, firsts: seq<Server>)
    returns (trace': seq<Action>, s': System)
    requires Good(from, firsts) && Reaches(from, trace, s) && Good(s, firsts)
    ensures Reaches(from, trace', s') && Quiet(s')
    decreases Measure(s)
  {
    if Quiet(s) {
      trace', s' := trace, s;
    } else {
      var a :| Enabled(s, a) && !Failing(s, a);
      ReachesMore(from, trace, s, a);
      MeasureFalls(s, a);
      GoodStep(s, a, firsts);
      MeasureNonNegative(s);
      trace', s' := RunToTheEnd(from, trace + [a], Next(s, a), firsts);
    }
  }

  /** The stuck run: whatever the clients and workers, one directory with more files than workers
      and queue hold brings the system into a circular wait that nothing ends. */
  lemma {:induction false} LongListingDeadlocks(from: System) returns (trace: seq<Action>, s: System)
    requires Init(from) && |from.plan| == 1
    requires from.plan[0].files.Some? && from.plan[0].files.value > from.limit + from.capacity
    ensures Reaches(from, trace, s) && Deadlocked(s)
    ensures forall later: seq<Action>, s': System :: Reaches(s, later, s') ==> Deadlocked(s')
  {
    var firsts := GoodInit(from);
    trace, s := RunToTheEnd(from, [], from, firsts);
    OneListingIff(from, trace, s);
    forall later: seq<Action>, s': System | Reaches(s, later, s')
      ensures Deadlocked(s')
    {
      DeadlockIsForEver(s, later, s');
    }
  }

  // ---------------------------------------------------------------- the disks

  lemma {:induction false} SeriesAreSeries(s: System, served: seq<nat>)
    requires forall t :: 0 <= t < |s.tasks| ==> TaskOk(s, t)
    ensures forall i :: 0 <= i < |SeriesOf(s.tasks, served)| ==> IsSeries(SeriesOf(s.tasks, served)[i])
  {
    if served != [] {
      SeriesAreSeries(s, served[..|served| - 1]);
      var t := served[|served| - 1];
      assert t < |s.tasks| ==> TaskOk(s, t);
    }
  }

  /** In every reachable state, stuck or not, the files of every client are those of the
      transfers it has served as a target, replayed in the order of service. */
  lemma {:induction false} DisksAreReplays(from: System, trace: seq<Action>, s: System, c: nat)
    requires Init(from) && Reaches(from, trace, s) && c < |s.clients|
    ensures c < |from.clients|
    ensures s.clients[c].server.disk
      == Replay(from.clients[c].server.disk, SeriesOf(s.tasks, s.clients[c].served))
    ensures |s.clients[c].server.open| <= 1
  {
    var firsts := GoodInit(from);
    GoodReached(from, trace, s, firsts);
    assert ClientOk(s, c, firsts[c]);
    SeriesAreSeries(s, s.clients[c].served);
    RunsReplay(firsts[c], SeriesOf(s.tasks, s.clients[c].served));
  }

  /** Where all work is done every target has served every one of its tasks, once. */
  lemma {:induction false} DoneMeansServedOnce(from: System, trace: seq<Action>, s: System)
    requires Init(from) && Reaches(from, trace, s) && Done(s)
    ensures forall c :: 0 <= c < |s.clients| ==> ServedOk(s.clients[c].served, c, s.tasks)
    ensures forall t :: 0 <= t < |s.tasks| ==>
      s.tasks[t].target < |s.clients| && t in s.clients[s.tasks[t].target].served
  {
    var firsts := GoodInit(from);
    GoodReached(from, trace, s, firsts);
    forall c | 0 <= c < |s.clients|
      ensures ServedOk(s.clients[c].served, c, s.tasks)
    {
      assert ClientOk(s, c, firsts[c]);
    }
    forall t | 0 <= t < |s.tasks|
      ensures s.tasks[t].target < |s.clients| && t in s.clients[s.tasks[t].target].served
    {
      assert TaskOk(s, t);
    }
  }
}
