/** What a transfer achieves: every run ends, an undisturbed one with an exact copy. */
module RelayEndToEnd {
  import opened Wire
  import opened FileServer
  import opened Relay
  import opened RelaySafety

  predicate SameJob(s: Transfer, s': Transfer) {
    s'.file == s.file && s'.path == s.path && s'.original == s.original
  }

  /** A target command changes nothing but the target. */
  lemma CommandChangesTarget(s: Transfer)
    requires Enabled(s, TargetCommand)
    ensures var s' := Next(s, TargetCommand);
      s' == s.(streamB := s.streamB[1..], server := s'.server, phase := s'.phase)
  {
  }

  lemma NextSameJob(s: Transfer, a: Action)
    requires Enabled(s, a)
    ensures SameJob(s, Next(s, a))
  {
    if a.TargetCommand? {
      CommandChangesTarget(s);
    } else {
      OtherSameJob(s, a);
    }
  }

  lemma OtherSameJob(s: Transfer, a: Action)
    requires Enabled(s, a) && !a.TargetCommand?
    ensures SameJob(s, Next(s, a))
  {
  }

  /** A failure leaves bytes behind for good. */
  ghost predicate LostOk(s: Transfer) {
    s.lost ==>
      || s.relay == RDone(-1)
      || (s.source == SIdle && s.buffer + s.unread != "")
      || ((s.relay == REnd || s.relay == RDone(0)) && s.total < s.announced)
  }

  lemma LostStep(s: Transfer, a: Action, inFlight: string)
    requires Conserved(s, inFlight) && LostOk(s) && Enabled(s, a)
    ensures LostOk(Next(s, a))
  {
    match a
    case TargetCommand => CommandChangesTarget(s);
    case RelayFirst(n) =>
      FirstReadSeesReply(s, n, inFlight);
      HeaderReadIff(s.file, n);
      LostFirst(s, n, ParseHeader(s.streamA[..n]));
    case _ => LostOther(s, a);
  }

  lemma LostFirst(s: Transfer, n: nat, result: FirstRead)
    requires LostOk(s) && s.relay == RFirst && n <= |s.streamA|
    requires result == NoHeader || result == Announced(|s.file|, |Header(|s.file|)|)
    ensures LostOk(TakeFirst(s, result, s.streamA[..n], s.streamA[n..]))
  {
  }

  lemma LostOther(s: Transfer, a: Action)
    requires RelayOk(s) && SourceOk(s) && LostOk(s) && Enabled(s, a)
    requires !a.TargetCommand? && !a.RelayFirst?
    ensures LostOk(Next(s, a))
  {
  }

  lemma {:induction false} ReachedConserved(from: Transfer, trace: seq<Action>, s: Transfer, inFlight: string)
    returns (inFlight': string)
    requires Conserved(from, inFlight) && LostOk(from) && Reaches(from, trace, s)
    ensures Conserved(s, inFlight') && LostOk(s) && SameJob(from, s)
    decreases |trace|
  {
    if trace == [] {
      inFlight' := inFlight;
    } else {
      var a := trace[0];
      var next := Step(from, a, inFlight);
      LostStep(from, a, inFlight);
      NextSameJob(from, a);
      inFlight' := ReachedConserved(Next(from, a), trace[1..], s, next);
    }
  }

  /** Conservation over every interleaving and every fragmentation: what is on the target's
      disk, on its way to the target, held by the relay, on its way from the source, in the
      source's buffer and still unread is the file, in this order; and `total` counts what the
      relay has sent on. */
  lemma {:induction false} BytesAreConserved(from: Transfer, trace: seq<Action>, s: Transfer) returns (inFlight: string)
    requires Init(from) && Reaches(from, trace, s)
    ensures InStep(s, inFlight)
    ensures s.relay != RDone(-1) ==>
      Delivered(s) + (inFlight + (s.held + (PayloadA(s) + (s.buffer + s.unread)))) == from.file
    ensures s.total == |Delivered(s) + inFlight|
  {
    InitConserved(from);
    inFlight := ReachedConserved(from, trace, s, "");
  }

  /** A transfer that returned 0 and whose sends have all been taken in has replaced the
      target file by the first `total` bytes of the source file, touched no other file, and
      left no descriptor open. That is a full copy if and only if no read and no send failed
      on the way. */
  lemma {:induction false} FinishedTransfer(from: Transfer, trace: seq<Action>, s: Transfer)
    requires Init(from) && Reaches(from, trace, s)
    requires s.relay == RDone(0) && s.streamB == []
    ensures s.total <= |from.file|
    ensures s.server.disk == from.original[Relative(from.path) := from.file[..s.total]]
    ensures s.server.open == map[]
    ensures s.server.disk == from.original[Relative(from.path) := from.file] <==> !Disturbed(trace)
  {
    InitConserved(from);
    var inFlight := ReachedConserved(from, trace, s, "");
    assert inFlight == "";
    WholeStartsWithDelivered(s);
    var file := Relative(from.path);
    assert Delivered(s) == from.file[..s.total];
    assert from.original[file := from.file][file] == from.file;
    assert from.original[file := from.file[..s.total]][file] == from.file[..s.total];
    assert from.file[..s.total] == from.file <==> s.total == |from.file|;
    assert !s.lost <==> s.total == |from.file|;
    LostIffDisturbed(from, trace, s);
  }

  /** Whether a read or a send has failed during the run. */
  ghost predicate Disturbed(trace: seq<Action>) {
    exists i :: 0 <= i < |trace| && Failure(trace[i])
  }

  /** The history field `lost` read off the run: as long as the relay has not given up on the
      header, it says whether a failure has happened. */
  lemma {:induction false} LostIffDisturbed(from: Transfer, trace: seq<Action>, s: Transfer)
    requires Reaches(from, trace, s) && s.relay != RDone(-1)
    ensures s.lost <==> from.lost || Disturbed(trace)
    decreases |trace|
  {
    if trace != [] {
      var a, rest := trace[0], trace[1..];
      LostIffDisturbed(Next(from, a), rest, s);
      if Next(from, a).relay == RDone(-1) {
        GivenUpStays(Next(from, a), rest, s);
      }
      StepLoses(from, a);
      assert Disturbed(trace) <==> Failure(a) || Disturbed(rest) by {
        if Disturbed(rest) {
          var i :| 0 <= i < |rest| && Failure(rest[i]);
          assert trace[i + 1] == rest[i];
        }
        if Disturbed(trace) {
          var i :| 0 <= i < |trace| && Failure(trace[i]);
          assert i > 0 ==> rest[i - 1] == trace[i];
        }
      }
    }
  }

  lemma StepLoses(s: Transfer, a: Action)
    requires Enabled(s, a)
    ensures Next(s, a).relay != RDone(-1) ==> (Next(s, a).lost <==> s.lost || Failure(a))
    ensures s.relay == RDone(-1) ==> Next(s, a).relay == RDone(-1)
  {
    if a.TargetCommand? {
      CommandChangesTarget(s);
    } else if a.RelayFirst? {
      FirstReadLoses(s, ParseHeader(s.streamA[..a.n]), s.streamA[..a.n], s.streamA[a.n..]);
    }
  }

  lemma FirstReadLoses(s: Transfer, result: FirstRead, response: string, rest: string)
    ensures var s' := TakeFirst(s, result, response, rest); s'.relay != RDone(-1) ==> s'.lost == s.lost
  {
  }

  lemma {:induction false} GivenUpStays(from: Transfer, trace: seq<Action>, s: Transfer)
    requires Reaches(from, trace, s) && from.relay == RDone(-1)
    ensures s.relay == RDone(-1)
    decreases |trace|
  {
    if trace != [] {
      StepLoses(from, trace[0]);
      GivenUpStays(Next(from, trace[0]), trace[1..], s);
    }
  }

  /** The first read has missed a part of the header. */
  ghost predicate HeaderMissed(from: Transfer, trace: seq<Action>) {
    exists i :: 0 <= i < |trace| && MissesHeader(from, trace[i])
  }

  predicate MissesHeader(from: Transfer, a: Action) {
    a.RelayFirst? && a.n < |Header(|from.file|)|
  }

  lemma StepGivesUp(s: Transfer, a: Action, inFlight: string)
    requires Conserved(s, inFlight) && Enabled(s, a)
    requires s.relay != RDone(-1) && Next(s, a).relay == RDone(-1)
    ensures Failure(a) || MissesHeader(s, a)
  {
    if a.TargetCommand? {
      CommandChangesTarget(s);
    } else if a.RelayFirst? {
      FirstReadSeesReply(s, a.n, inFlight);
      HeaderReadIff(s.file, a.n);
      FirstReadGivesUp(s, ParseHeader(s.streamA[..a.n]), a.n);
    }
  }

  lemma FirstReadGivesUp(s: Transfer, result: FirstRead, n: nat)
    requires n <= |s.streamA|
    requires result == if n < |Header(|s.file|)| then NoHeader else Announced(|s.file|, |Header(|s.file|)|)
    ensures TakeFirst(s, result, s.streamA[..n], s.streamA[n..]).relay == RDone(-1) <==> n < |Header(|s.file|)|
  {
  }

  /** The relay refuses only after a failure or a first read that misses the header. */
  lemma {:induction false} RefusedWhy(from: Transfer, trace: seq<Action>, s: Transfer, inFlight: string)
    requires Conserved(from, inFlight) && Reaches(from, trace, s)
    requires from.relay != RDone(-1) && s.relay == RDone(-1)
    ensures Disturbed(trace) || HeaderMissed(from, trace)
    decreases |trace|
  {
    var a, rest := trace[0], trace[1..];
    if Next(from, a).relay == RDone(-1) {
      StepGivesUp(from, a, inFlight);
    } else {
      var next := Step(from, a, inFlight);
      NextSameJob(from, a);
      RefusedWhy(Next(from, a), rest, s, next);
      if Disturbed(rest) {
        var i :| 0 <= i < |rest| && Failure(rest[i]);
        assert trace[i + 1] == rest[i];
      } else {
        var i :| 0 <= i < |rest| && MissesHeader(Next(from, a), rest[i]);
        assert MissesHeader(from, trace[i + 1]);
      }
    }
  }

  lemma WholeStartsWithDelivered(s: Transfer)
    requires Conserved(s, "") && s.relay == RDone(0)
    ensures s.total <= |s.file| && Delivered(s) == s.file[..s.total]
    ensures s.total + |PayloadA(s)| + |s.buffer| + |s.unread| == |s.file|
  {
    var rest := "" + (s.held + (PayloadA(s) + (s.buffer + s.unread)));
    assert s.file == Delivered(s) + rest;
  }

  /** A transfer that returned -1 after the first read has sent the target nothing, and there
      was a failure or that read missed a part of the header. */
  lemma {:induction false} RefusedTransfer(from: Transfer, trace: seq<Action>, s: Transfer)
    requires Init(from) && Reaches(from, trace, s) && s.relay == RDone(-1)
    ensures s.streamB == [] && s.server.disk == from.original
    ensures Disturbed(trace) || HeaderMissed(from, trace)
  {
    InitConserved(from);
    RefusedWhy(from, trace, s, "");
    var inFlight := ReachedConserved(from, trace, s, "");
  }

  // ---------------------------------------------------------------- termination

  function SourceRank(s: Transfer): nat {
    match s.source
    case SStart => 12 * |Header(|s.file|)| + 2
    case SRead => 1
    case SSend => 1
    case SIdle => 0
  }

  function RelayRank(r: RelayPc): nat {
    match r
    case RFirst => 7
    case ROpen => 6
    case RCommand => 4
    case RLoop => 3
    case RData => 2
    case REnd => 2
    case RDone(_) => 0
  }

  /** Every byte weighs less the further it has come. */
  function Measure(s: Transfer, inFlight: string): nat {
    14 * |s.unread| + 13 * |s.buffer| + 12 * |s.streamA| + 7 * |s.held| + |inFlight| + |s.streamB|
      + SourceRank(s) + RelayRank(s.relay)
  }

  lemma SourceMeasureFalls(s: Transfer, a: Action, inFlight: string)
    requires Conserved(s, inFlight) && Enabled(s, a)
    requires a.SourceHeader? || a.SourceReads? || a.SourceSends? || a.SourceStops? || a.SourceFails?
    ensures Measure(Next(s, a), inFlight) < Measure(s, inFlight)
  {
  }

  lemma FirstMeasureFalls(s: Transfer, n: nat, result: FirstRead, inFlight: string)
    requires Conserved(s, inFlight) && Enabled(s, RelayFirst(n))
    ensures Measure(TakeFirst(s, result, s.streamA[..n], s.streamA[n..]), inFlight) < Measure(s, inFlight)
  {
  }

  lemma SendMeasureFalls(s: Transfer, inFlight: string, inFlight': string)
    requires RelayOk(s) && Enabled(s, RelaySends)
    requires |inFlight'| == |inFlight| + (if s.relay == RData then |s.held| else 0)
    ensures Measure(Send(s), inFlight') < Measure(s, inFlight)
  {
  }

  lemma ReadMeasureFalls(s: Transfer, a: Action, inFlight: string)
    requires RelayOk(s) && Enabled(s, a) && (a.RelayReads? || a.RelayFails?)
    ensures Measure(Next(s, a), inFlight) < Measure(s, inFlight)
  {
  }

  lemma TargetMeasureFalls(s: Transfer, n: nat, inFlight: string, inFlight': string)
    requires Enabled(s, TargetReceives(n)) && |inFlight'| == |inFlight| - n
    ensures Measure(Next(s, TargetReceives(n)), inFlight') < Measure(s, inFlight)
  {
  }

  lemma {:induction false} MeasureFalls(s: Transfer, a: Action, inFlight: string, inFlight': string)
    requires Conserved(s, inFlight) && Enabled(s, a)
    requires |inFlight'| == |inFlight| + (if a.RelaySends? && s.relay == RData then |s.held| else 0)
      - (if a.TargetReceives? then a.n else 0)
    ensures Measure(Next(s, a), inFlight') < Measure(s, inFlight)
  {
    match a
    case RelayFirst(n) => FirstMeasureFalls(s, n, ParseHeader(s.streamA[..n]), inFlight);
    case RelayReads(_) => ReadMeasureFalls(s, a, inFlight);
    case RelayFails => ReadMeasureFalls(s, a, inFlight);
    case RelaySends => SendMeasureFalls(s, inFlight, inFlight');
    case TargetCommand => CommandChangesTarget(s);
    case TargetReceives(n) => TargetMeasureFalls(s, n, inFlight, inFlight');
    case _ => SourceMeasureFalls(s, a, inFlight);
  }

  /** However the parties are scheduled and the data is cut, a transfer ends. */
  lemma {:induction false} TransfersEnd(from: Transfer, trace: seq<Action>, s: Transfer, inFlight: string)
    requires Conserved(from, inFlight) && Reaches(from, trace, s)
    ensures |trace| <= Measure(from, inFlight)
    decreases |trace|
  {
    if trace != [] {
      var next := Step(from, trace[0], inFlight);
      MeasureFalls(from, trace[0], inFlight, next);
      TransfersEnd(Next(from, trace[0]), trace[1..], s, next);
    }
  }

  // ---------------------------------------------------------------- progress

  /** Nothing can happen any more but failures. */
  ghost predicate Quiet(s: Transfer) {
    forall a: Action :: Enabled(s, a) ==> Failure(a)
  }

  lemma QuietSource(s: Transfer)
    requires Quiet(s)
    ensures s.source == SIdle || (s.source == SSend && s.buffer == "")
  {
    assert !Enabled(s, SourceHeader) && !Enabled(s, SourceReads(1)) && !Enabled(s, SourceStops)
      && !Enabled(s, SourceSends(1));
  }

  lemma QuietRelay(s: Transfer, inFlight: string)
    requires SourceOk(s) && RelayOk(s) && Quiet(s) && !s.lost
    requires s.total == |Delivered(s)| + |inFlight|
    requires s.relay != RDone(-1) ==> |Whole(s, inFlight)| == |s.file|
    ensures s.relay == RDone(0)
  {
    QuietSource(s);
    assert !Enabled(s, RelayFirst(1)) && !Enabled(s, RelaySends) && !Enabled(s, RelayReads(1));
    assert |Whole(s, inFlight)|
      == |Delivered(s)| + |inFlight| + |s.held| + |PayloadA(s)| + |s.buffer| + |s.unread|;
  }

  lemma QuietTarget(s: Transfer, follow: Follower)
    requires TakesChunks(follow) && Pending(follow, s.phase, s.streamB).Some?
    requires TargetOk(s) && Quiet(s)
    ensures s.streamB == []
  {
    assert !Enabled(s, TargetCommand) && !Enabled(s, TargetReceives(1));
    if s.streamB != [] {
      ChunkWhole(follow, s.phase.missing, s.streamB);
    }
  }

  lemma ChunkWhole(follow: Follower, missing: nat, sends: seq<string>)
    requires TakesChunks(follow) && sends != [] && Pending(follow, Inside(missing), sends).Some?
    ensures |sends[0]| == missing
  {
    assert follow(Inside(missing), sends[0]).Some?;
  }

  /** Total correctness: a transfer in which no read or send fails and the first read holds
      the header cannot run for ever, cannot get stuck half way, and ends with an exact copy
      of the file, empty files included. */
  lemma {:induction false} UndisturbedTransferCopies(from: Transfer, trace: seq<Action>, s: Transfer)
    requires Init(from) && Reaches(from, trace, s)
    ensures |trace| <= Measure(from, "")
    ensures Quiet(s) && !Disturbed(trace) && !HeaderMissed(from, trace) ==>
      && s.relay == RDone(0) && s.streamB == [] && s.total == |from.file|
      && s.server.disk == from.original[Relative(from.path) := from.file] && s.server.open == map[]
  {
    InitConserved(from);
    TransfersEnd(from, trace, s, "");
    if Quiet(s) && !Disturbed(trace) && !HeaderMissed(from, trace) {
      if s.relay == RDone(-1) {
        RefusedWhy(from, trace, s, "");
      }
      LostIffDisturbed(from, trace, s);
      var inFlight := ReachedConserved(from, trace, s, "");
      QuietRelay(s, inFlight);
      FollowOfTakesChunks(s.path);
      QuietTarget(s, FollowOf(s.path));
      FinishedTransfer(from, trace, s);
    }
  }

  // ---------------------------------------------------------------- return value 0 is no promise

  lemma {:induction false} ReachesMore(from: Transfer, trace: seq<Action>, s: Transfer, a: Action)
    requires Reaches(from, trace, s) && Enabled(s, a)
    ensures Reaches(from, trace + [a], Next(s, a))
    decreases |trace|
  {
    if trace == [] {
      assert trace + [a] == [a];
      assert Reaches(Next(from, a), [a][1..], Next(s, a));
    } else {
      ReachesMore(Next(from, trace[0]), trace[1..], s, a);
      assert (trace + [a])[1..] == trace[1..] + [a];
    }
  }

  /** The source sends its header, the relay reads exactly that. */
  lemma {:induction false} HeaderOnly(from: Transfer) returns (trace: seq<Action>, s: Transfer)
    requires Init(from) && |Header(|from.file|)| < MAX_BUFFER
    ensures Reaches(from, trace, s) && SmoothRun(from, trace)
    ensures s == from.(source := SRead, relay := ROpen, announced := |from.file|)
  {
    var n := |Header(|from.file|)|;
    trace, s := More(from, [], from, SourceHeader);
    HeaderIsRead(s);
    SmoothMore(from, [], SourceHeader);
    SmoothMore(from, trace, RelayFirst(n));
    trace, s := More(from, trace, s, RelayFirst(n));
  }

  lemma HeaderIsRead(s: Transfer)
    requires s.relay == RFirst && s.streamA == Header(|s.file|) && s.held == ""
    ensures var n := |s.streamA|;
      TakeFirst(s, ParseHeader(s.streamA[..n]), s.streamA[..n], s.streamA[n..])
      == s.(relay := ROpen, announced := |s.file|, streamA := "")
  {
    var n := |s.streamA|;
    assert s.streamA[..n] == PullReply(s.file)[..n];
    HeaderReadIff(s.file, n);
    FirstReadOfHeader(s);
  }

  lemma FirstReadOfHeader(s: Transfer)
    requires s.relay == RFirst && s.streamA == Header(|s.file|) && s.held == ""
    requires ParseHeader(s.streamA[..|s.streamA|]) == Announced(|s.file|, |s.streamA|)
    ensures TakeFirst(s, ParseHeader(s.streamA[..|s.streamA|]), s.streamA[..|s.streamA|], s.streamA[|s.streamA|..])
      == s.(relay := ROpen, announced := |s.file|, streamA := "")
  {
    assert s.streamA[|s.streamA|..] == "";
  }

  /** An action of an undisturbed run, once the header has been read. */
  predicate Smooth(a: Action) { !Failure(a) && !a.RelayFirst? }

  lemma QuietOrMore(s: Transfer, inFlight: string) returns (quiet: bool, a: Action)
    requires Conserved(s, inFlight) && s.relay != RFirst
    ensures quiet ==> Quiet(s)
    ensures !quiet ==> Enabled(s, a) && Smooth(a)
  {
    quiet := Quiet(s);
    a := SourceStops;
    if !quiet {
      a :| Enabled(s, a) && !Failure(a);
    }
  }

  lemma StaysPastFirst(s: Transfer, a: Action)
    requires Enabled(s, a) && s.relay != RFirst
    ensures Next(s, a).relay != RFirst
  {
    if a.TargetCommand? {
      CommandChangesTarget(s);
    }
  }

  ghost predicate SmoothRun(from: Transfer, trace: seq<Action>) {
    !Disturbed(trace) && !HeaderMissed(from, trace)
  }

  lemma SmoothMore(from: Transfer, trace: seq<Action>, a: Action)
    requires SmoothRun(from, trace) && !Failure(a) && !MissesHeader(from, a)
    ensures SmoothRun(from, trace + [a])
  {
  }

  lemma {:induction false} RunSmoothly(from: Transfer, trace: seq<Action>, s: Transfer, inFlight: string)
    returns (trace': seq<Action>, s': Transfer)
    requires Reaches(from, trace, s) && SmoothRun(from, trace)
    requires Conserved(s, inFlight) && s.relay != RFirst
    ensures Reaches(from, trace', s') && SmoothRun(from, trace') && Quiet(s')
    decreases Measure(s, inFlight)
  {
    var quiet, a := QuietOrMore(s, inFlight);
    if quiet {
      trace', s' := trace, s;
    } else {
      var next := Step(s, a, inFlight);
      MeasureFalls(s, a, inFlight, next);
      StaysPastFirst(s, a);
      ReachesMore(from, trace, s, a);
      SmoothMore(from, trace, a);
      trace', s' := RunSmoothly(from, trace + [a], Next(s, a), next);
    }
  }

  /** For every file whose size a `long` can hold there is a run that copies it. */
  lemma {:induction false} CopyExists(from: Transfer) returns (trace: seq<Action>, s: Transfer)
    requires Init(from) && |from.file| < 0x8000_0000_0000_0000
    ensures Reaches(from, trace, s) && SmoothRun(from, trace) && s.relay == RDone(0)
    ensures s.server.disk == from.original[Relative(from.path) := from.file] && s.server.open == map[]
  {
    HeaderFits(|from.file|);
    trace, s := HeaderOnly(from);
    InitConserved(from);
    var inFlight := ReachedConserved(from, trace, s, "");
    trace, s := RunSmoothly(from, trace, s, inFlight);
    UndisturbedTransferCopies(from, trace, s);
  }

  /** The relay opens the target file, finds the stream at its end, and closes. */
  lemma {:induction false} OpenAndClose(from: Transfer, trace: seq<Action>, s: Transfer)
    returns (trace': seq<Action>, s': Transfer)
    requires Reaches(from, trace, s) && s.relay == ROpen && s.held == "" && s.streamB == []
    requires s.total == 0 < s.announced
    ensures Reaches(from, trace', s')
    ensures s' == s.(relay := RDone(0), lost := true,
                     streamB := [PushCommand(s.path, -1), PushCommand(s.path, 0)])
  {
    trace', s' := More(from, trace, s, RelaySends);
    trace', s' := More(from, trace', s', RelayFails);
    trace', s' := More(from, trace', s', RelaySends);
    assert s'.streamB == [] + [PushCommand(s.path, -1)] + [PushCommand(s.path, 0)];
  }

  /** `sync_single_file` can return 0 without having copied anything: whatever the non-empty
      file, if the source goes away right after the header, the target file ends up empty. */
  lemma {:induction false} SuccessWithoutCopy(from: Transfer) returns (trace: seq<Action>, s: Transfer)
    requires Init(from) && from.file != "" && |Header(|from.file|)| < MAX_BUFFER
    ensures Reaches(from, trace, s) && s.relay == RDone(0) && s.streamB == []
    ensures s.server.disk == from.original[Relative(from.path) := ""]
    ensures s.server.disk != from.original[Relative(from.path) := from.file]
  {
    trace, s := HeaderOnly(from);
    trace, s := OpenAndClose(from, trace, s);
    trace, s := Drain(from, trace, s);
    FinishedTransfer(from, trace, s);
    assert from.file[..0] == "";
    assert s.server.disk[Relative(from.path)] == "";
  }

  lemma {:induction false} More(from: Transfer, trace: seq<Action>, s: Transfer, a: Action)
    returns (trace': seq<Action>, s': Transfer)
    requires Reaches(from, trace, s) && Enabled(s, a)
    ensures trace' == trace + [a] && s' == Next(s, a) && Reaches(from, trace', s')
  {
    trace', s' := trace + [a], Next(s, a);
    ReachesMore(from, trace, s, a);
  }

  /** The target takes in an opening and a closing command. */
  lemma {:induction false} Drain(from: Transfer, trace: seq<Action>, s: Transfer)
    returns (trace': seq<Action>, s': Transfer)
    requires Reaches(from, trace, s) && IsPathWord(s.path) && s.phase == Before
    requires s.streamB == [PushCommand(s.path, -1), PushCommand(s.path, 0)]
    ensures Reaches(from, trace', s') && s'.streamB == [] && s'.relay == s.relay && s'.total == s.total
  {
    PushRoundTripIff(s.path, -1);
    trace', s' := More(from, trace, s, TargetCommand);
    assert s'.streamB == [PushCommand(s.path, 0)];
    CommandChangesTarget(s);
    PushRoundTripIff(s.path, 0);
    CommandChangesTarget(s');
    trace', s' := More(from, trace', s', TargetCommand);
  }
}
