/** Conservation of the file's bytes over every interleaving of the three parties, and what a
    finished transfer has left on the target's disk. */
module RelaySafety {
  import opened Options
  import opened Wire
  import opened FileServer
  import opened Relay

  /** Nothing has been sent to the target yet, or nothing ever will be. */
  predicate NotStarted(r: RelayPc) { r == RFirst || r == ROpen || r == RDone(-1) }

  ghost predicate SourceOk(s: Transfer) {
    && (s.source == SStart ==>
          s.unread == s.file && s.buffer == "" && s.streamA == "" && s.relay in {RFirst, RDone(-1)})
    && (s.source == SRead ==> s.buffer == "")
    && (s.source == SSend ==> s.buffer != "")
    && (s.source == SIdle && !s.lost ==> s.unread == "" && s.buffer == "")
    && (s.source != SStart && s.relay == RFirst ==> Header(|s.file|) <= s.streamA)
  }

  /** File bytes on the first stream. */
  function PayloadA(s: Transfer): string {
    var header := Header(|s.file|);
    if s.relay != RFirst then s.streamA
    else if header <= s.streamA then s.streamA[|header|..]
    else ""
  }

  ghost predicate RelayOk(s: Transfer) {
    && (s.relay.RCommand? || s.relay.RData? ==> s.held != "")
    && (s.relay.RFirst? || s.relay.RLoop? || s.relay.REnd? || s.relay.RDone? ==> s.held == "")
    && (s.relay.RDone? ==> s.relay.rc == 0 || s.relay.rc == -1)
    && (s.relay == RDone(-1) ==> s.lost)
    && (s.relay != RFirst && s.relay != RDone(-1) ==> s.announced == |s.file|)
    && ((s.relay == REnd || s.relay == RDone(0)) && !s.lost ==> s.total >= s.announced)
    && (NotStarted(s.relay) ==> s.streamB == [] && s.phase == Before && s.total == 0)
  }

  /** What this transfer has put on the target's disk. */
  function Delivered(s: Transfer): string {
    var file := Relative(s.path);
    if s.phase == Before || file !in s.server.disk then "" else s.server.disk[file]
  }

  ghost predicate TargetOk(s: Transfer) {
    var file := Relative(s.path);
    && s.server.Valid()
    && (s.phase == Before ==> s.server.disk == s.original)
    && (s.phase != Before ==> file in s.server.disk && s.server.disk == s.original[file := Delivered(s)])
    && (s.phase == Between || s.phase.Inside? ==> s.server.current >= 0 && s.server.open[s.server.current] == file)
    && (s.phase == After ==> s.server.current == -1)
    && (s.phase.Inside? ==> s.phase.missing > 0)
  }

  /** Where the target stands once it has taken in everything sent to it. */
  function SentPhase(r: RelayPc, held: string): Phase {
    if NotStarted(r) then Before
    else if r.RData? then Inside(|held|)
    else if r.RDone? then After
    else Between
  }

  /** Target and relay agree on what the bytes between them mean; `inFlight` is the payload. */
  ghost predicate InStep(s: Transfer, inFlight: string) {
    Pending(FollowOf(s.path), s.phase, s.streamB) == Some((SentPhase(s.relay, s.held), inFlight))
  }

  /** The bytes of the file, wherever they are, in order. */
  function Whole(s: Transfer, inFlight: string): string {
    Delivered(s) + (inFlight + (s.held + (PayloadA(s) + (s.buffer + s.unread))))
  }

  /** The invariant. `inFlight` is the payload between relay and target. */
  ghost predicate Conserved(s: Transfer, inFlight: string) {
    && IsPathWord(s.path) && SourceOk(s) && RelayOk(s) && TargetOk(s) && InStep(s, inFlight)
    && s.total == |Delivered(s)| + |inFlight|
    && (s.relay != RDone(-1) ==> Whole(s, inFlight) == s.file)
  }

  lemma Regroup(a: string, x: string, b: string)
    ensures (a + x) + b == a + (x + b)
  {
  }

  /** Cutting `a` in two and joining the pieces again. */
  lemma CutAndJoin(a: string, n: nat, b: string)
    requires n <= |a|
    ensures a[..n] + (a[n..] + b) == a + b
  {
    assert a[..n] + a[n..] == a;
    Regroup(a[..n], a[n..], b);
  }

  lemma InitConserved(s: Transfer)
    requires Init(s)
    ensures Conserved(s, "")
  {
  }

  // ---------------------------------------------------------------- the source

  /** Reading moves bytes within `buffer + unread`. */
  lemma BufferFilled(s: Transfer, buffer: string, unread: string, inFlight: string)
    requires Conserved(s, inFlight) && s.source == SRead && buffer != "" && buffer + unread == s.unread
    ensures Conserved(s.(source := SSend, buffer := buffer, unread := unread), inFlight)
  {
    var s' := s.(source := SSend, buffer := buffer, unread := unread);
    assert s.buffer + s.unread == s.unread;
    assert PayloadA(s') == PayloadA(s) && Delivered(s') == Delivered(s);
    assert Whole(s', inFlight) == Whole(s, inFlight);
  }

  lemma ReadCuts(s: Transfer, n: nat)
    requires Enabled(s, SourceReads(n))
    ensures s.source == SRead && s.unread[..n] != "" && s.unread[..n] + s.unread[n..] == s.unread
    ensures Next(s, SourceReads(n)) == s.(source := SSend, buffer := s.unread[..n], unread := s.unread[n..])
  {
  }

  lemma SourceReadsStep(s: Transfer, n: nat, inFlight: string)
    requires Conserved(s, inFlight) && Enabled(s, SourceReads(n))
    ensures Conserved(Next(s, SourceReads(n)), inFlight)
  {
    ReadCuts(s, n);
    BufferFilled(s, s.unread[..n], s.unread[n..], inFlight);
  }

  lemma SourceEndsStep(s: Transfer, a: Action, inFlight: string)
    requires Conserved(s, inFlight) && Enabled(s, a) && (a.SourceStops? || a.SourceFails?)
    ensures Conserved(Next(s, a), inFlight)
  {
  }

  lemma SourceHeaderStep(s: Transfer, inFlight: string)
    requires Conserved(s, inFlight) && Enabled(s, SourceHeader)
    ensures Conserved(Next(s, SourceHeader), inFlight)
  {
    var s' := Next(s, SourceHeader);
    assert PayloadA(s) == "" && (s'.relay == RFirst ==> PayloadA(s') == "");
  }

  lemma SourceSendsStep(s: Transfer, n: nat, inFlight: string)
    requires Conserved(s, inFlight) && Enabled(s, SourceSends(n))
    ensures Conserved(Next(s, SourceSends(n)), inFlight)
  {
    var s' := Next(s, SourceSends(n));
    assert PayloadA(s') == PayloadA(s) + s.buffer[..n];
    assert PayloadA(s) + (s.buffer + s.unread) == PayloadA(s') + (s'.buffer + s'.unread) by {
      CutAndJoin(s.buffer, n, s.unread);
      Regroup(PayloadA(s), s.buffer[..n], s.buffer[n..] + s.unread);
    }
  }

  // ---------------------------------------------------------------- the relay

  /** What the first read finds on the stream. */
  lemma FirstReadSeesReply(s: Transfer, n: nat, inFlight: string)
    requires Conserved(s, inFlight) && Enabled(s, RelayFirst(n))
    ensures s.streamA == Header(|s.file|) + PayloadA(s)
    ensures inFlight == "" && PayloadA(s) + (s.buffer + s.unread) == s.file
    ensures s.streamA[..n] == PullReply(s.file)[..n]
  {
    var header, payload, rest := Header(|s.file|), PayloadA(s), s.buffer + s.unread;
    assert s.streamA == header + payload;
    assert "" + ("" + ("" + (payload + rest))) == payload + rest;
    Regroup(header, payload, rest);
    assert (s.streamA + rest)[..n] == s.streamA[..n];
  }

  lemma FirstReadStep(s: Transfer, n: nat, result: FirstRead, inFlight: string)
    requires Conserved(s, inFlight) && Enabled(s, RelayFirst(n))
    requires s.streamA == Header(|s.file|) + PayloadA(s) && inFlight == ""
    requires PayloadA(s) + (s.buffer + s.unread) == s.file
    requires result == if n < |Header(|s.file|)| then NoHeader else Announced(|s.file|, |Header(|s.file|)|)
    ensures Conserved(TakeFirst(s, result, s.streamA[..n], s.streamA[n..]), inFlight)
  {
    var s' := TakeFirst(s, result, s.streamA[..n], s.streamA[n..]);
    var header, payload, rest := Header(|s.file|), PayloadA(s), s.buffer + s.unread;
    if n >= |header| {
      var m := n - |header|;
      assert s'.held == payload[..m] && PayloadA(s') == payload[m..];
      CutAndJoin(payload, m, rest);
      assert "" + ("" + (s'.held + (PayloadA(s') + rest))) == s'.held + (PayloadA(s') + rest);
    }
  }

  lemma {:induction false} RelayFirstStep(s: Transfer, n: nat, inFlight: string)
    requires Conserved(s, inFlight) && Enabled(s, RelayFirst(n))
    ensures Conserved(Next(s, RelayFirst(n)), inFlight)
  {
    FirstReadSeesReply(s, n, inFlight);
    HeaderReadIff(s.file, n);
    FirstReadStep(s, n, ParseHeader(s.streamA[..n]), inFlight);
  }

  lemma RelayReadsStep(s: Transfer, n: nat, inFlight: string)
    requires Conserved(s, inFlight) && Enabled(s, RelayReads(n))
    ensures Conserved(Next(s, RelayReads(n)), inFlight)
  {
    var s' := Next(s, RelayReads(n));
    var rest := s.buffer + s.unread;
    assert s'.held + (s'.streamA + rest) == s.held + (s.streamA + rest) by {
      CutAndJoin(s.streamA, n, rest);
      assert "" + (s.streamA + rest) == s.streamA + rest;
    }
  }

  lemma RelayFailsStep(s: Transfer, inFlight: string)
    requires Conserved(s, inFlight) && Enabled(s, RelayFails)
    ensures Conserved(Next(s, RelayFails), inFlight)
  {
  }

  /** The command the relay is about to send. */
  predicate Announces(s: Transfer, chunk: int) {
    || (s.relay == ROpen && chunk == -1)
    || (s.relay == RCommand && chunk == |s.held| && chunk > 0)
    || (s.relay == REnd && chunk == 0)
  }

  /** It is one the target will follow. */
  lemma AnnouncedFollows(s: Transfer, chunk: int)
    requires Announces(s, chunk)
    ensures FollowCommand(SentPhase(s.relay, s.held), Push(s.path, chunk), s.path)
      == Some((SentPhase(Send(s).relay, Send(s).held), ""))
  {
  }

  lemma PushFollowed(path: string, phase: Phase, chunk: int)
    requires IsPathWord(path) && !phase.Inside?
    ensures FollowOf(path)(phase, PushCommand(path, chunk)) == FollowCommand(phase, Push(path, chunk), path)
  {
    PushRoundTripIff(path, chunk);
    FollowIsCommand(path, phase, PushCommand(path, chunk));
  }

  lemma FollowIsCommand(path: string, phase: Phase, send: string)
    requires !phase.Inside?
    ensures FollowOf(path)(phase, send) == FollowCommand(phase, ParseRequest(send), path)
  {
  }

  lemma AppendCommand(follow: Follower, phase: Phase, sends: seq<string>, send: string,
                      last: Phase, next: Phase, inFlight: string)
    requires Pending(follow, phase, sends) == Some((last, inFlight)) && follow(last, send) == Some((next, ""))
    ensures Pending(follow, phase, sends + [send]) == Some((next, inFlight))
  {
    PendingAppend(follow, phase, sends, send);
    assert inFlight + "" == inFlight;
  }

  lemma CommandKeepsStep(s: Transfer, chunk: int, inFlight: string)
    requires InStep(s, inFlight) && IsPathWord(s.path) && Announces(s, chunk)
    ensures Pending(FollowOf(s.path), s.phase, s.streamB + [PushCommand(s.path, chunk)])
      == Some((SentPhase(Send(s).relay, Send(s).held), inFlight))
  {
    AnnouncedFollows(s, chunk);
    PushFollowed(s.path, SentPhase(s.relay, s.held), chunk);
    AppendCommand(FollowOf(s.path), s.phase, s.streamB, PushCommand(s.path, chunk),
                  SentPhase(s.relay, s.held), SentPhase(Send(s).relay, Send(s).held), inFlight);
  }

  lemma RelaySendsCommand(s: Transfer, chunk: int, inFlight: string)
    requires Conserved(s, inFlight) && Announces(s, chunk)
    ensures Conserved(Send(s), inFlight)
  {
    CommandKeepsStep(s, chunk, inFlight);
    assert InStep(Send(s), inFlight);
  }

  lemma RelaySendsData(s: Transfer, inFlight: string)
    requires Conserved(s, inFlight) && s.relay == RData
    ensures Conserved(Send(s), inFlight + s.held)
  {
    PendingAppend(FollowOf(s.path), s.phase, s.streamB, s.held);
    var rest := PayloadA(s) + (s.buffer + s.unread);
    Regroup(inFlight, s.held, rest);
    assert "" + rest == rest;
  }

  lemma RelaySendsStep(s: Transfer, inFlight: string)
    requires Conserved(s, inFlight) && Enabled(s, RelaySends)
    ensures Conserved(Next(s, RelaySends), if s.relay == RData then inFlight + s.held else inFlight)
  {
    match s.relay
    case ROpen => RelaySendsCommand(s, -1, inFlight);
    case RCommand => RelaySendsCommand(s, |s.held|, inFlight);
    case RData => RelaySendsData(s, inFlight);
    case REnd => RelaySendsCommand(s, 0, inFlight);
    case _ =>
  }

  // ---------------------------------------------------------------- the target

  lemma ReceiveKeepsStep(s: Transfer, n: nat, inFlight: string) returns (left: string)
    requires InStep(s, inFlight) && Enabled(s, TargetReceives(n))
    ensures InStep(Next(s, TargetReceives(n)), left)
    ensures inFlight == s.streamB[0][..n] + left
  {
    var s' := Next(s, TargetReceives(n));
    FollowOfTakesChunks(s.path);
    PendingReceive(FollowOf(s.path), s.streamB, s.phase.missing, n);
    left := Pending(FollowOf(s.path), s'.phase, s'.streamB).value.1;
  }

  lemma ReceiveDelivers(s: Transfer, n: nat)
    requires TargetOk(s) && Enabled(s, TargetReceives(n))
    ensures TargetOk(Next(s, TargetReceives(n)))
    ensures Delivered(Next(s, TargetReceives(n))) == Delivered(s) + s.streamB[0][..n]
  {
    var s' := Next(s, TargetReceives(n));
    var file := Relative(s.path);
    assert s'.server.disk == s.server.disk[file := s.server.disk[file] + s.streamB[0][..n]];
  }

  lemma {:induction false} TargetReceivesStep(s: Transfer, n: nat, inFlight: string) returns (left: string)
    requires Conserved(s, inFlight) && Enabled(s, TargetReceives(n))
    ensures Conserved(Next(s, TargetReceives(n)), left) && |inFlight| == n + |left|
  {
    left := ReceiveKeepsStep(s, n, inFlight);
    ReceiveDelivers(s, n);
    var bytes := s.streamB[0][..n];
    var rest := s.held + (PayloadA(s) + (s.buffer + s.unread));
    Regroup(Delivered(s), bytes, left + rest);
    Regroup(bytes, left, rest);
  }

  lemma CommandInStep(s: Transfer, request: Request, inFlight: string)
    requires InStep(s, inFlight) && s.streamB != []
    requires FollowOf(s.path)(s.phase, s.streamB[0]) == FollowCommand(s.phase, request, s.path)
    ensures var next := FollowCommand(s.phase, request, s.path);
      next.Some? && Pending(FollowOf(s.path), next.value.0, s.streamB[1..])
        == Some((SentPhase(s.relay, s.held), inFlight))
  {
    PendingObey(FollowOf(s.path), s.phase, s.streamB, FollowCommand(s.phase, request, s.path));
  }

  lemma {:induction false} TargetCommandStep(s: Transfer, inFlight: string)
    requires Conserved(s, inFlight) && Enabled(s, TargetCommand)
    ensures Conserved(Next(s, TargetCommand), inFlight)
  {
    var request := ParseRequest(s.streamB[0]);
    FollowIsCommand(s.path, s.phase, s.streamB[0]);
    CommandInStep(s, request, inFlight);
    ObeyFollowed(s, request, inFlight);
  }

  lemma ObeyTarget(s: Transfer, request: Request)
    requires TargetOk(s) && s.streamB != [] && FollowCommand(s.phase, request, s.path).Some?
    ensures var s' := Obey(s.(streamB := s.streamB[1..]), request);
      && TargetOk(s') && Delivered(s') == Delivered(s)
      && s'.phase == FollowCommand(s.phase, request, s.path).value.0
      && s' == s.(streamB := s.streamB[1..], phase := s'.phase, server := s'.server)
  {
    if request.chunk == -1 && s.server.current >= 0 {
      assert s.server.open - {s.server.current} == map[];
    }
  }

  lemma ObeyFollowed(s: Transfer, request: Request, inFlight: string)
    requires Conserved(s, inFlight) && s.streamB != []
    requires var next := FollowCommand(s.phase, request, s.path);
      next.Some? && Pending(FollowOf(s.path), next.value.0, s.streamB[1..])
        == Some((SentPhase(s.relay, s.held), inFlight))
    ensures Conserved(Obey(s.(streamB := s.streamB[1..]), request), inFlight)
  {
    ObeyTarget(s, request);
    var s' := Obey(s.(streamB := s.streamB[1..]), request);
    assert InStep(s', inFlight);
  }

  // ---------------------------------------------------------------- every run

  lemma {:induction false} Step(s: Transfer, a: Action, inFlight: string) returns (inFlight': string)
    requires Conserved(s, inFlight) && Enabled(s, a)
    ensures Conserved(Next(s, a), inFlight')
    ensures |inFlight'| == |inFlight| + (if a.RelaySends? && s.relay == RData then |s.held| else 0)
      - (if a.TargetReceives? then a.n else 0)
  {
    inFlight' := inFlight;
    match a
    case SourceHeader => SourceHeaderStep(s, inFlight);
    case SourceReads(n) => SourceReadsStep(s, n, inFlight);
    case SourceStops => SourceEndsStep(s, a, inFlight);
    case SourceFails => SourceEndsStep(s, a, inFlight);
    case SourceSends(n) => SourceSendsStep(s, n, inFlight);
    case RelayFirst(n) => RelayFirstStep(s, n, inFlight);
    case RelayReads(n) => RelayReadsStep(s, n, inFlight);
    case RelayFails => RelayFailsStep(s, inFlight);
    case RelaySends =>
      RelaySendsStep(s, inFlight);
      inFlight' := if s.relay == RData then inFlight + s.held else inFlight;
    case TargetCommand => TargetCommandStep(s, inFlight);
    case TargetReceives(n) => inFlight' := TargetReceivesStep(s, n, inFlight);
  }
}
