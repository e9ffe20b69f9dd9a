/** What the whole system copies: what each transfer carries, and what is on the disks when all
    work is done. */
module FleetCopies {
  import opened FileServer
  import opened Fleet
  import opened FleetJobs
  import opened FleetRuns
  import opened FleetSafety
  import opened FleetSchedules
  import opened Options
  import opened ServerRuns

  // ---------------------------------------------------------------- what a transfer carries

  /** Tasks keep their clients and paths. */
  ghost predicate SamePlaces(s: System, s': System) {
    && |s'.tasks| == |s.tasks|
    && forall t :: 0 <= t < |s.tasks| ==> s'.tasks[t] == s.tasks[t].(phase := s'.tasks[t].phase)
  }

  lemma SamePlacesStep(s: System, a: Action)
    requires Enabled(s, a)
    ensures SamePlaces(s, Next(s, a))
  {
  }

  /** A task is closed by its own transfer or refusal, and what it has sent stays the same. */
  lemma ClosedBy(s: System, a: Action, t: nat)
    requires JobsOk(s) && Enabled(s, a) && t < |s.tasks| && Next(s, a).tasks[t].phase.Closed?
    ensures s.tasks[t].phase.Closed? ==> Next(s, a).tasks[t] == s.tasks[t]
    ensures !s.tasks[t].phase.Closed? ==> (a.Transfer? || a.Refuse?) && a.t == t
  {
    if a.Take? {
      assert s.jobs[0] in s.jobs;
    }
  }

  /** The transfer of a task: the step, and the file the source client had then. */
  ghost predicate TransferAt(mid: System, a: Action, t: nat, sent: Option<Series>) {
    && Enabled(mid, a) && t < |mid.tasks| && mid.tasks[t].source < |mid.clients|
    && match sent
       case Some(x) =>
         && a.Transfer? && a.t == t && SourceFile(mid, t).Some?
         && Content(x) <= SourceFile(mid, t).value
         && (Content(x) == SourceFile(mid, t).value <==> !Failing(mid, a))
       case None => a == Refuse(t) && (SourceFile(mid, t).None? <==> !Failing(mid, a))
  }

  lemma ClosingStep(s: System, a: Action, t: nat)
    requires JobsOk(s) && Enabled(s, a) && t < |s.tasks|
    requires !s.tasks[t].phase.Closed? && Next(s, a).tasks[t].phase.Closed?
    ensures TransferAt(s, a, t, Next(s, a).tasks[t].phase.sent)
  {
    ClosedBy(s, a, t);
    if a.Transfer? {
      assert Concat(a.chunks) + "" == Concat(a.chunks);
    }
  }

  lemma {:induction false} ClosedSince(from: System, trace: seq<Action>, s: System, firsts: seq<Server>, t: nat)
    requires Good(from, firsts) && Reaches(from, trace, s)
    requires t < |from.tasks| && from.tasks[t].phase.Closed?
    ensures t < |s.tasks| && s.tasks[t] == from.tasks[t]
    decreases |trace|
  {
    if trace != [] {
      GoodStep(from, trace[0], firsts);
      ClosedStays(from, trace[0], t);
      ClosedBy(from, trace[0], t);
      ClosedSince(Next(from, trace[0]), trace[1..], s, firsts, t);
    }
  }

  lemma {:induction false} ClosedWhen(from: System, trace: seq<Action>, s: System, firsts: seq<Server>, t: nat)
    returns (k: nat, mid: System)
    requires Good(from, firsts) && Reaches(from, trace, s)
    requires t < |from.tasks| && !from.tasks[t].phase.Closed?
    requires t < |s.tasks| && s.tasks[t].phase.Closed?
    ensures k < |trace| && Reaches(from, trace[..k], mid)
    ensures TransferAt(mid, trace[k], t, s.tasks[t].phase.sent)
    decreases |trace|
  {
    var a, rest := trace[0], trace[1..];
    var next := Next(from, a);
    GoodStep(from, a, firsts);
    SamePlacesStep(from, a);
    if next.tasks[t].phase.Closed? {
      ClosingStep(from, a, t);
      ClosedSince(next, rest, s, firsts, t);
      k, mid := 0, from;
    } else {
      var k', mid' := ClosedWhen(next, rest, s, firsts, t);
      k, mid := k' + 1, mid';
      assert trace[..k][1..] == rest[..k'];
    }
  }

  /** What a task has sent to its target is a prefix of what its source file was at the moment of
      the transfer, and all of it exactly if that step did not fail; nothing is sent exactly if
      the task was refused, which without a failure means that the file was not there. */
  lemma {:induction false} SentIsPrefix(from: System, trace: seq<Action>, s: System, t: nat)
    returns (k: nat, mid: System)
    requires Init(from) && Reaches(from, trace, s) && t < |s.tasks| && s.tasks[t].phase.Closed?
    ensures k < |trace| && Reaches(from, trace[..k], mid)
    ensures TransferAt(mid, trace[k], t, s.tasks[t].phase.sent)
  {
    var firsts := GoodInit(from);
    GoodReached(from, trace, s, firsts);
    k, mid := ClosedWhen(from, trace, s, firsts, t);
  }

  // ---------------------------------------------------------------- runs without failures

  predicate SameTarget(s: System, t: nat, c: nat, file: string)
    requires t < |s.tasks|
  {
    s.tasks[t].target == c && Relative(s.tasks[t].targetPath) == file
  }

  /** Different tasks write different files, and none writes a file that is to be copied. */
  ghost predicate Apart(s: System) {
    && (forall t, u :: 0 <= t < u < |s.tasks| ==>
          !SameTarget(s, u, s.tasks[t].target, Relative(s.tasks[t].targetPath)))
    && forall t, u :: 0 <= t < |s.tasks| && 0 <= u < |s.tasks| ==>
          !SameTarget(s, u, s.tasks[t].source, Relative(s.tasks[t].sourcePath))
  }

  /** Every series a client has taken in is what a task with this target has sent. */
  lemma {:induction false} SeriesFrom(s: System, served: seq<nat>, i: nat) returns (u: nat)
    requires i < |SeriesOf(s.tasks, served)|
    ensures u in served && SeriesOfTask(s.tasks, u) == [SeriesOf(s.tasks, served)[i]]
  {
    var before := SeriesOf(s.tasks, served[..|served| - 1]);
    if i < |before| {
      u := SeriesFrom(s, served[..|served| - 1], i);
    } else {
      u := served[|served| - 1];
    }
  }

  lemma SeriesTarget(s: System, firsts: seq<Server>, c: nat, i: nat) returns (u: nat)
    requires Good(s, firsts) && c < |s.clients| && i < |SeriesOf(s.tasks, s.clients[c].served)|
    ensures u < |s.tasks| && s.tasks[u].phase.Closed?
    ensures s.tasks[u].phase.sent == Some(SeriesOf(s.tasks, s.clients[c].served)[i])
    ensures SameTarget(s, u, c, Relative(SeriesOf(s.tasks, s.clients[c].served)[i].path))
  {
    u := SeriesFrom(s, s.clients[c].served, i);
    assert ClientOk(s, c, firsts[c]);
    var j :| 0 <= j < |s.clients[c].served| && s.clients[c].served[j] == u;
    assert TaskOk(s, u);
  }

  /** A file that no task with something to send writes is as it was. */
  lemma {:induction false} FileUntouched(from: System, trace: seq<Action>, s: System, firsts: seq<Server>,
                                         c: nat, file: string)
    requires Init(from) && Reaches(from, trace, s) && Good(s, firsts) && SamePlan(from, s) && c < |s.clients|
    requires forall u :: 0 <= u < |s.tasks| && s.tasks[u].phase.Closed? && s.tasks[u].phase.sent.Some? ==>
               !SameTarget(s, u, c, file)
    ensures SameAt(from, s, c, file)
  {
    DisksAreReplays(from, trace, s, c);
    var xs := SeriesOf(s.tasks, s.clients[c].served);
    forall i | 0 <= i < |xs|
      ensures Relative(xs[i].path) != file
    {
      var u := SeriesTarget(s, firsts, c, i);
    }
    ReplayUntouched(from.clients[c].server.disk, xs, file);
  }

  ghost predicate SameAt(from: System, s: System, c: nat, file: string) {
    && c < |from.clients| && c < |s.clients|
    && var disk, disk' := from.clients[c].server.disk, s.clients[c].server.disk;
       (file in disk' <==> file in disk) && (file in disk ==> disk'[file] == disk[file])
  }

  /** The files to be copied do not change. */
  lemma SourcesStay(from: System, trace: seq<Action>, s: System, firsts: seq<Server>, t: nat)
    requires Init(from) && Reaches(from, trace, s) && Good(s, firsts) && SamePlan(from, s)
    requires Apart(from) && SamePlaces(from, s) && t < |s.tasks|
    ensures from.tasks[t].source < |from.clients| && s.tasks[t].source < |s.clients|
    ensures SourceFile(s, t) == SourceFile(from, t)
  {
    assert PlacedTask(from.tasks[t], |from.clients|);
    var c, file := from.tasks[t].source, Relative(from.tasks[t].sourcePath);
    forall u | 0 <= u < |s.tasks|
      ensures !SameTarget(s, u, c, file)
    {
      assert !SameTarget(from, u, c, file);
    }
    FileUntouched(from, trace, s, firsts, c, file);
  }

  /** What is done without a failure has been done right. */
  ghost predicate Exact(from: System, s: System) {
    forall t :: 0 <= t < |s.tasks| && t < |from.tasks| && s.tasks[t].phase.Closed? ==>
      from.tasks[t].source < |from.clients| && SentIs(s.tasks[t].phase.sent, SourceFile(from, t))
  }

  predicate SentIs(sent: Option<Series>, file: Option<string>) {
    match sent
    case Some(x) => file == Some(Content(x))
    case None => file == None
  }

  lemma ExactStep(from: System, before: seq<Action>, s: System, a: Action, firsts: seq<Server>)
    requires Init(from) && Reaches(from, before, s) && Good(s, firsts) && SamePlan(from, s)
    requires Apart(from) && SamePlaces(from, s) && Exact(from, s)
    requires Enabled(s, a) && !Failing(s, a)
    ensures Exact(from, Next(s, a))
  {
    var s' := Next(s, a);
    SamePlacesStep(s, a);
    forall t | 0 <= t < |s'.tasks| && t < |from.tasks| && s'.tasks[t].phase.Closed?
      ensures from.tasks[t].source < |from.clients| && SentIs(s'.tasks[t].phase.sent, SourceFile(from, t))
    {
      SourcesStay(from, before, s, firsts, t);
      if s.tasks[t].phase.Closed? {
        ClosedBy(s, a, t);
      } else {
        ClosingStep(s, a, t);
      }
    }
  }

  /** A clean run so far. */
  ghost predicate OnTrack(from: System, before: seq<Action>, s: System, firsts: seq<Server>) {
    && Init(from) && Apart(from) && Reaches(from, before, s)
    && Good(s, firsts) && SamePlan(from, s) && SamePlaces(from, s) && Exact(from, s)
  }

  lemma OnTrackStep(from: System, before: seq<Action>, s: System, a: Action, firsts: seq<Server>)
    requires OnTrack(from, before, s, firsts) && Enabled(s, a) && !Failing(s, a)
    ensures OnTrack(from, before + [a], Next(s, a), firsts)
  {
    ExactStep(from, before, s, a, firsts);
    ReachesMore(from, before, s, a);
    GoodStep(s, a, firsts);
    SamePlacesStep(s, a);
  }

  lemma Cut(trace: seq<Action>, k: nat)
    requires k < |trace|
    ensures trace[k..][0] == trace[k] && trace[k..][1..] == trace[k + 1..]
    ensures trace[..k] + [trace[k]] == trace[..k + 1]
  {
  }

  lemma {:induction false} CleanIsExact(from: System, trace: seq<Action>, k: nat, s: System, s': System,
                                        firsts: seq<Server>)
    requires k <= |trace| && OnTrack(from, trace[..k], s, firsts)
    requires Reaches(s, trace[k..], s') && Clean(s, trace[k..])
    ensures OnTrack(from, trace, s', firsts)
    decreases |trace| - k
  {
    if k == |trace| {
      assert trace[..k] == trace;
    } else {
      Cut(trace, k);
      OnTrackStep(from, trace[..k], s, trace[k], firsts);
      CleanIsExact(from, trace, k + 1, Next(s, trace[k]), s', firsts);
    }
  }

  // ---------------------------------------------------------------- the disks in the end

  /** Where a task's series stands among those its target has taken in. */
  lemma {:induction false} SeriesIn(tasks: seq<Task>, served: seq<nat>, t: nat) returns (i: nat)
    requires t in served && SeriesOfTask(tasks, t) != []
    ensures i < |SeriesOf(tasks, served)| && SeriesOf(tasks, served)[i] == SeriesOfTask(tasks, t)[0]
  {
    var before, last := served[..|served| - 1], served[|served| - 1];
    if last == t {
      i := |SeriesOf(tasks, before)|;
    } else {
      assert served == before + [last];
      i := SeriesIn(tasks, before, t);
    }
  }

  /** The content a task has sent is on its target's disk, once that client has served it. */
  lemma ContentArrives(from: System, trace: seq<Action>, s: System, firsts: seq<Server>, t: nat)
    requires Init(from) && Reaches(from, trace, s) && Good(s, firsts) && SamePlan(from, s)
    requires Apart(from) && SamePlaces(from, s)
    requires t < |s.tasks| && s.tasks[t].phase.Closed? && s.tasks[t].phase.sent.Some?
    requires s.tasks[t].target < |s.clients| && t in s.clients[s.tasks[t].target].served
    ensures var disk, file := s.clients[s.tasks[t].target].server.disk, Relative(s.tasks[t].targetPath);
      file in disk && disk[file] == Content(s.tasks[t].phase.sent.value)
  {
    var c, x := s.tasks[t].target, s.tasks[t].phase.sent.value;
    DisksAreReplays(from, trace, s, c);
    assert TaskOk(s, t);
    var xs := SeriesOf(s.tasks, s.clients[c].served);
    var i := SeriesIn(s.tasks, s.clients[c].served, t);
    var last := LastFor(s, firsts, c, i);
    var u := SeriesTarget(s, firsts, c, last);
    OnlyOneWrites(from, s, t, u);
    ReplayKeepsLast(from.clients[c].server.disk, xs, last);
  }

  /** The last series for the file of the `i`-th. */
  lemma LastFor(s: System, firsts: seq<Server>, c: nat, i: nat) returns (last: nat)
    requires c < |s.clients| && i < |SeriesOf(s.tasks, s.clients[c].served)|
    ensures var xs := SeriesOf(s.tasks, s.clients[c].served);
      && i <= last < |xs| && Relative(xs[last].path) == Relative(xs[i].path)
      && forall j :: last < j < |xs| ==> Relative(xs[j].path) != Relative(xs[last].path)
  {
    var xs := SeriesOf(s.tasks, s.clients[c].served);
    last := i;
    var j := i + 1;
    while j < |xs|
      invariant i <= last < j <= |xs| && Relative(xs[last].path) == Relative(xs[i].path)
      invariant forall k :: last < k < j ==> Relative(xs[k].path) != Relative(xs[i].path)
    {
      if Relative(xs[j].path) == Relative(xs[i].path) {
        last := j;
      }
      j := j + 1;
    }
  }

  lemma OnlyOneWrites(from: System, s: System, t: nat, u: nat)
    requires Apart(from) && SamePlaces(from, s) && t < |s.tasks| && u < |s.tasks|
    requires SameTarget(s, u, s.tasks[t].target, Relative(s.tasks[t].targetPath))
    ensures u == t
  {
    assert SameTarget(from, u, from.tasks[t].target, Relative(from.tasks[t].targetPath));
    assert SameTarget(from, t, from.tasks[u].target, Relative(from.tasks[u].targetPath));
  }

  /** The file to be copied is there at the start. */
  predicate HasSource(from: System, t: nat)
    requires t < |from.tasks| && from.tasks[t].source < |from.clients|
  {
    Relative(from.tasks[t].sourcePath) in from.clients[from.tasks[t].source].server.disk
  }

  /** The task has something to copy to this file. */
  predicate Writes(from: System, t: nat, c: nat, file: string)
    requires t < |from.tasks| && from.tasks[t].source < |from.clients|
  {
    SameTarget(from, t, c, file) && HasSource(from, t)
  }

  ghost predicate NobodyWrites(from: System, c: nat, file: string)
    requires forall t :: 0 <= t < |from.tasks| ==> from.tasks[t].source < |from.clients|
  {
    forall t :: 0 <= t < |from.tasks| ==> !Writes(from, t, c, file)
  }

  /** Where all work is done without a failure, every target file is an exact copy of what its
      source file was at the start, and every other file on every disk is as it was. */
  lemma {:induction false} AllCopiesExact(from: System, trace: seq<Action>, s: System)
    requires Init(from) && Reaches(from, trace, s) && Done(s) && Clean(from, trace) && Apart(from)
    ensures |s.tasks| == |from.tasks| && |s.clients| == |from.clients|
    ensures forall t :: 0 <= t < |from.tasks| ==> PlacedTask(from.tasks[t], |from.clients|)
    ensures forall t :: 0 <= t < |from.tasks| && HasSource(from, t) ==>
      var task, file := from.tasks[t], Relative(from.tasks[t].targetPath);
      && file in s.clients[task.target].server.disk
      && s.clients[task.target].server.disk[file]
         == from.clients[task.source].server.disk[Relative(task.sourcePath)]
    ensures forall c, file :: 0 <= c < |from.clients| && NobodyWrites(from, c, file) ==> SameAt(from, s, c, file)
  {
    var firsts := GoodInit(from);
    assert trace[..0] == [] && trace[0..] == trace;
    CleanIsExact(from, trace, 0, from, s, firsts);
    DoneMeansServedOnce(from, trace, s);
    forall t | 0 <= t < |from.tasks| && HasSource(from, t)
      ensures var task, file := from.tasks[t], Relative(from.tasks[t].targetPath);
        && file in s.clients[task.target].server.disk
        && s.clients[task.target].server.disk[file]
           == from.clients[task.source].server.disk[Relative(task.sourcePath)]
    {
      ContentArrives(from, trace, s, firsts, t);
    }
    forall c, file | 0 <= c < |from.clients| && NobodyWrites(from, c, file)
      ensures SameAt(from, s, c, file)
    {
      forall u | 0 <= u < |s.tasks| && s.tasks[u].phase.Closed? && s.tasks[u].phase.sent.Some?
        ensures !SameTarget(s, u, c, file)
      {
        assert !Writes(from, u, c, file);
      }
      FileUntouched(from, trace, s, firsts, c, file);
    }
  }
}
