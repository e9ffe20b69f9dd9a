/** Which plans of listings the whole system can carry out at all. */
module FleetSchedules {
  import opened FileServer
  import opened Fleet
  import opened FleetJobs
  import opened FleetRuns

  /** One listing is under way or just over, and all tasks of earlier ones are done. */
  ghost predicate InTurn(s: System, turn: nat) {
    && turn < |s.plan|
    && (if s.manager == Idle then s.turn == turn + 1 else s.turn == turn)
    && forall t :: 0 <= t < Start(s.plan, turn) && t < |s.tasks| ==> s.tasks[t].phase.Closed?
  }

  /** What is done stays done. */
  lemma ClosedStays(s: System, a: Action, t: nat)
    requires JobsOk(s) && Enabled(s, a) && t < |s.tasks| && s.tasks[t].phase.Closed?
    ensures t < |Next(s, a).tasks| && Next(s, a).tasks[t].phase.Closed?
  {
    if a.Take? {
      assert s.jobs[0] in s.jobs;
    }
  }

  lemma InTurnStep(s: System, a: Action, turn: nat)
    requires JobsOk(s) && Enabled(s, a) && !a.Ask? && InTurn(s, turn)
    ensures InTurn(Next(s, a), turn)
  {
    forall t | 0 <= t < Start(s.plan, turn) && t < |s.tasks|
      ensures t < |Next(s, a).tasks| && Next(s, a).tasks[t].phase.Closed?
    {
      ClosedStays(s, a, t);
    }
  }

  lemma {:induction false} RunToRest(from: System, trace: seq<Action>, s: System, firsts: seq<Server>, turn: nat)
    returns (trace': seq<Action>, s': System)
    requires Reaches(from, trace, s) && Clean(from, trace) && Good(s, firsts) && InTurn(s, turn)
    ensures Reaches(from, trace', s') && Clean(from, trace')
    ensures Good(s', firsts) && InTurn(s', turn) && Resting(s') && SamePlan(s, s')
    decreases Measure(s)
  {
    if Resting(s) {
      trace', s' := trace, s;
    } else {
      var a :| Enabled(s, a) && !a.Ask? && !Failing(s, a);
      ReachesMore(from, trace, s, a);
      CleanMore(from, trace, s, a);
      MeasureFalls(s, a);
      GoodStep(s, a, firsts);
      InTurnStep(s, a, turn);
      MeasureNonNegative(s);
      trace', s' := RunToRest(from, trace + [a], Next(s, a), firsts, turn);
    }
  }

  /** With all earlier jobs done, a listing that fits cannot end in a circular wait. */
  lemma FittingTurnEndsIdle(s: System, firsts: seq<Server>, turn: nat)
    requires Good(s, firsts) && InTurn(s, turn) && Resting(s)
    requires s.plan[turn].files.Some? && s.plan[turn].files.value <= s.limit + s.capacity
    ensures s.manager == Idle
  {
    match s.manager
    case Idle =>
    case Asking(_) => AskingMeansHung(s, firsts);
    case Offering(_, _) =>
      OfferingMeansDeadlock(s, firsts);
      MoreToOffer(s);
      OpenTasksFit(s, Start(s.plan, turn));
  }

  lemma OneTurn(from: System, trace: seq<Action>, s: System, firsts: seq<Server>)
    returns (trace': seq<Action>, s': System)
    requires Reaches(from, trace, s) && Clean(from, trace) && Good(s, firsts) && Settled(s) && s.turn < |s.plan|
    requires s.plan[s.turn].files.Some? && s.plan[s.turn].files.value <= s.limit + s.capacity
    ensures Reaches(from, trace', s') && Clean(from, trace')
    ensures Good(s', firsts) && Settled(s') && s'.turn == s.turn + 1 && SamePlan(s, s')
  {
    ReachesMore(from, trace, s, Ask);
    CleanMore(from, trace, s, Ask);
    GoodStep(s, Ask, firsts);
    trace', s' := RunToRest(from, trace + [Ask], Next(s, Ask), firsts, s.turn);
    FittingTurnEndsIdle(s', firsts, s.turn);
    IdleMeansSettled(s', firsts);
  }

  lemma {:induction false} AllTurns(from: System, trace: seq<Action>, s: System, firsts: seq<Server>)
    returns (trace': seq<Action>, s': System)
    requires Reaches(from, trace, s) && Clean(from, trace) && Good(s, firsts) && Settled(s) && AllFit(s)
    ensures Reaches(from, trace', s') && Clean(from, trace') && Done(s')
    decreases |s.plan| - s.turn
  {
    if s.turn == |s.plan| {
      SettledMeansDone(s);
      trace', s' := trace, s;
    } else {
      var trace1, s1 := OneTurn(from, trace, s, firsts);
      trace', s' := AllTurns(from, trace1, s1, firsts);
    }
  }

  /** Some run without a failure does all the work. */
  ghost predicate CanGetDone(from: System) {
    exists trace: seq<Action>, s: System :: Reaches(from, trace, s) && Clean(from, trace) && Done(s)
  }

  /** For every sequence of listings: some run carries it out, without a failure, if and only if
      every directory can be opened and none has more files than the workers and the queue hold together. */
  lemma {:induction false} CanGetDoneIff(from: System)
    requires Init(from)
    ensures CanGetDone(from) <==> AllFit(from)
  {
    if CanGetDone(from) {
      var trace: seq<Action>, s: System :| Reaches(from, trace, s) && Clean(from, trace) && Done(s);
      DoneMeansAllFit(from, trace, s);
    }
    if AllFit(from) {
      var firsts := GoodInit(from);
      var trace, s := AllTurns(from, [], from, firsts);
    }
  }
}
