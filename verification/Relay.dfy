/** One file on its way: the source client's PULL loop, the worker that relays, and the target
    client's PUSH loop, running at once and joined by two streams.
    `src/nfs_client_logic.c:62-81`, `src/thread_pool.c:266-341`, `src/nfs_client_logic.c:86-144`.
    Every read and every payload send may cut the data anywhere. */
module Relay {
  import opened Options
  import opened Wire
  import opened FileServer

  datatype SourcePc = SStart | SRead | SSend | SIdle

  /** `sync_single_file` after the PULL command has been sent. */
  datatype RelayPc =
    | RFirst     // in the first recv
    | ROpen      // about to send PUSH -1
    | RCommand   // about to announce the bytes held
    | RData      // about to send the bytes held
    | RLoop      // loop test and recv
    | REnd       // about to send PUSH 0
    | RDone(rc: int)

  /** Where the target is in the series of this file; inside a chunk, how much is missing. */
  datatype Phase = Before | Between | Inside(missing: nat) | After

  datatype Transfer = Transfer(
    file: string, path: string, original: map<string, string>,
    source: SourcePc, unread: string, buffer: string,
    streamA: string,
    relay: RelayPc, held: string, total: nat, announced: int,
    streamB: seq<string>,
    phase: Phase, server: Server,
    lost: bool) // a failure, or a first read that misses the header, has happened

  datatype Action =
    | SourceHeader | SourceReads(n: nat) | SourceSends(n: nat) | SourceStops | SourceFails
    | RelayFirst(n: nat) | RelayReads(n: nat) | RelaySends | RelayFails
    | TargetCommand | TargetReceives(n: nat)

  ghost predicate Init(s: Transfer) {
    && s.source == SStart && s.unread == s.file && s.buffer == "" && s.streamA == ""
    && s.relay == RFirst && s.held == "" && s.total == 0
    && s.streamB == [] && s.phase == Before
    && s.server.Valid() && s.server.disk == s.original
    && IsPathWord(s.path) && !s.lost
  }

  /** A failing read or send. A read that fails with nothing left to read is `SourceStops`:
      the program takes both for the end of the file. */
  predicate Failure(a: Action) { a.SourceFails? || a.RelayFails? }

  predicate Enabled(s: Transfer, a: Action) {
    match a
    case SourceHeader => s.source == SStart
    case SourceReads(n) => s.source == SRead && 1 <= n <= |s.unread| && n <= MAX_BUFFER
    case SourceStops => s.source == SRead && s.unread == ""
    case SourceSends(n) => s.source == SSend && 1 <= n <= |s.buffer|
    case SourceFails => s.source == SSend || (s.source == SRead && s.unread != "")
    case RelayFirst(n) => s.relay == RFirst && 1 <= n <= |s.streamA| && n <= MAX_BUFFER - 1
    case RelayReads(n) =>
      s.relay == RLoop && s.total < s.announced && 1 <= n <= |s.streamA| && n <= MAX_BUFFER
    case RelaySends =>
      s.relay.ROpen? || s.relay.RCommand? || s.relay.RData? || s.relay.REnd?
      || (s.relay.RLoop? && s.total >= s.announced)
    case RelayFails => s.relay == RFirst || (s.relay == RLoop && s.total < s.announced)
    case TargetCommand => !s.phase.Inside? && s.streamB != []
    case TargetReceives(n) =>
      s.phase.Inside? && s.streamB != [] && 1 <= n <= |s.streamB[0]| && n <= s.phase.missing && n <= MAX_BUFFER
  }

  function Next(s: Transfer, a: Action): Transfer
    requires Enabled(s, a)
  {
    match a
    case SourceHeader => s.(source := SRead, streamA := Header(|s.file|))
    case SourceReads(n) => s.(source := SSend, buffer := s.unread[..n], unread := s.unread[n..])
    case SourceStops => s.(source := SIdle)
    case SourceSends(n) =>
      s.(streamA := s.streamA + s.buffer[..n], buffer := s.buffer[n..],
         source := if n == |s.buffer| then SRead else SSend)
    case SourceFails => s.(source := SIdle, lost := true)
    case RelayFirst(n) => TakeFirst(s, ParseHeader(s.streamA[..n]), s.streamA[..n], s.streamA[n..])
    case RelayReads(n) => s.(held := s.streamA[..n], streamA := s.streamA[n..], relay := RCommand)
    case RelaySends => Send(s)
    case RelayFails => s.(relay := if s.relay == RFirst then RDone(-1) else REnd, lost := true)
    case TargetCommand => Obey(s.(streamB := s.streamB[1..]), ParseRequest(s.streamB[0]))
    case TargetReceives(n) =>
      var missing := s.phase.missing - n;
      s.(server := s.server.Written(s.streamB[0][..n]), streamB := Drop(s.streamB, n),
         phase := if missing == 0 then Between else Inside(missing))
  }

  /** The first `recv` mixes header and payload. */
  function TakeFirst(s: Transfer, result: FirstRead, response: string, rest: string): Transfer {
    match result
    case NoHeader => s.(relay := RDone(-1), streamA := rest, lost := true)
    case Announced(size, headerLength) =>
      if size < 0 || headerLength > |response| then s.(relay := RDone(-1), streamA := rest, lost := true)
      else s.(relay := ROpen, streamA := rest, announced := size, held := response[headerLength..])
  }

  function Send(s: Transfer): Transfer {
    match s.relay
    case ROpen =>
      s.(streamB := s.streamB + [PushCommand(s.path, -1)], relay := if s.held == "" then RLoop else RCommand)
    case RCommand => s.(streamB := s.streamB + [PushCommand(s.path, |s.held|)], relay := RData)
    case RData => s.(streamB := s.streamB + [s.held], total := s.total + |s.held|, held := "", relay := RLoop)
    case RLoop => s.(relay := REnd)
    case REnd => s.(streamB := s.streamB + [PushCommand(s.path, 0)], relay := RDone(0))
    case _ => s
  }

  /** What the target's command loop does with one command. */
  function Obey(s: Transfer, request: Request): (s': Transfer)
    ensures s' == s.(server := s'.server, phase := s'.phase)
  {
    match request
    case Push(path, chunk) =>
      if chunk == -1 then s.(server := s.server.Opened(path), phase := Between)
      else if chunk == 0 then s.(server := s.server.Closed(), phase := After)
      else if chunk > 0 && s.server.current >= 0 then s.(phase := Inside(chunk))
      else s
    case _ => s
  }

  ghost predicate Reaches(from: Transfer, trace: seq<Action>, s: Transfer)
    decreases |trace|
  {
    if trace == [] then s == from
    else Enabled(from, trace[0]) && Reaches(Next(from, trace[0]), trace[1..], s)
  }

  // ---------------------------------------------------------------- the target's stream

  /** What one more send does to a target that is in step with it, and the payload it adds. */
  function Follow(phase: Phase, send: string, path: string): Option<(Phase, string)> {
    if phase.Inside? then
      if |send| == phase.missing then Some((Between, send)) else None
    else FollowCommand(phase, ParseRequest(send), path)
  }

  function FollowCommand(phase: Phase, request: Request, path: string): Option<(Phase, string)> {
    if !request.Push? || request.path != path then None
    else if phase == Before && request.chunk == -1 then Some((Between, ""))
    else if phase == Between && request.chunk == 0 then Some((After, ""))
    else if phase == Between && request.chunk > 0 then Some((Inside(request.chunk), ""))
    else None
  }

  type Follower = (Phase, string) -> Option<(Phase, string)>

  function FollowOf(path: string): Follower { (phase, send) => Follow(phase, send, path) }

  /** Where the target will be after the sends in flight, and the payload among them. */
  function Pending(follow: Follower, phase: Phase, sends: seq<string>): Option<(Phase, string)>
    decreases |sends|
  {
    if sends == [] then Some((phase, ""))
    else
      match follow(phase, sends[0])
      case None => None
      case Some(first) =>
        match Pending(follow, first.0, sends[1..])
        case None => None
        case Some(rest) => Some((rest.0, first.1 + rest.1))
  }

  lemma {:induction false} PendingAppend(follow: Follower, phase: Phase, sends: seq<string>, send: string)
    requires Pending(follow, phase, sends).Some?
    requires follow(Pending(follow, phase, sends).value.0, send).Some?
    ensures var before := Pending(follow, phase, sends).value;
      var last := follow(before.0, send).value;
      Pending(follow, phase, sends + [send]) == Some((last.0, before.1 + last.1))
    decreases |sends|
  {
    if sends == [] {
      assert sends + [send] == [send];
      var last := follow(phase, send).value;
      assert Pending(follow, last.0, [send][1..]) == Some((last.0, ""));
      assert "" + last.1 == last.1 + "";
    } else {
      var first := follow(phase, sends[0]).value;
      var rest := Pending(follow, first.0, sends[1..]).value;
      var last := follow(rest.0, send).value;
      PendingAppend(follow, first.0, sends[1..], send);
      assert (sends + [send])[0] == sends[0] && (sends + [send])[1..] == sends[1..] + [send];
      assert first.1 + (rest.1 + last.1) == (first.1 + rest.1) + last.1;
    }
  }

  ghost predicate TakesChunks(follow: Follower) {
    forall missing, send :: follow(Inside(missing), send) ==
      if |send| == missing then Some((Between, send)) else None
  }

  /** Receiving `n` bytes of a chunk takes them off the payload in flight. */
  lemma PendingReceive(follow: Follower, sends: seq<string>, missing: nat, n: nat)
    requires TakesChunks(follow)
    requires Pending(follow, Inside(missing), sends).Some? && sends != []
    requires 1 <= n <= |sends[0]| && n <= missing
    ensures var left := if missing == n then Between else Inside(missing - n);
      var before := Pending(follow, Inside(missing), sends);
      var after := Pending(follow, left, Drop(sends, n));
      after.Some? && after.value.0 == before.value.0 && before.value.1 == sends[0][..n] + after.value.1
  {
    if n < missing {
      ReceiveInside(follow, sends, missing, n);
    } else {
      ReceiveLast(follow, sends, missing);
    }
  }

  lemma ReceiveInside(follow: Follower, sends: seq<string>, missing: nat, n: nat)
    requires TakesChunks(follow) && sends != [] && Pending(follow, Inside(missing), sends).Some?
    requires 1 <= n <= |sends[0]| && n < missing
    ensures var before := Pending(follow, Inside(missing), sends);
      var after := Pending(follow, Inside(missing - n), Drop(sends, n));
      after.Some? && after.value.0 == before.value.0 && before.value.1 == sends[0][..n] + after.value.1
  {
    var head, tail := sends[0], sends[1..];
    assert follow(Inside(missing), head) == Some((Between, head));
    var rest := Pending(follow, Between, tail).value;
    assert Drop(sends, n) == [head[n..]] + tail;
    assert follow(Inside(missing - n), head[n..]) == Some((Between, head[n..]));
    assert Pending(follow, Inside(missing - n), [head[n..]] + tail) == Some((rest.0, head[n..] + rest.1)) by {
      assert ([head[n..]] + tail)[1..] == tail;
    }
    SplitHead(head, n, rest.1);
  }

  lemma SplitHead(head: string, n: nat, rest: string)
    requires n <= |head|
    ensures head + rest == head[..n] + (head[n..] + rest)
  {
    assert head == head[..n] + head[n..];
  }

  lemma ReceiveLast(follow: Follower, sends: seq<string>, missing: nat)
    requires TakesChunks(follow) && sends != [] && Pending(follow, Inside(missing), sends).Some?
    requires 1 <= missing <= |sends[0]|
    ensures var before := Pending(follow, Inside(missing), sends);
      var after := Pending(follow, Between, Drop(sends, missing));
      after.Some? && after.value.0 == before.value.0 && before.value.1 == sends[0][..missing] + after.value.1
  {
    assert follow(Inside(missing), sends[0]) == Some((Between, sends[0]));
    assert sends[0][..missing] == sends[0];
  }

  /** Obeying a command in step with the series moves the target one send on. */
  lemma PendingObey(follow: Follower, phase: Phase, sends: seq<string>, next: Option<(Phase, string)>)
    requires Pending(follow, phase, sends).Some? && sends != []
    requires next == follow(phase, sends[0]) && (next.Some? ==> next.value.1 == "")
    ensures next.Some? && Pending(follow, next.value.0, sends[1..]) == Pending(follow, phase, sends)
  {
    var rest := Pending(follow, next.value.0, sends[1..]).value.1;
    assert "" + rest == rest;
  }

  lemma FollowOfTakesChunks(path: string)
    ensures TakesChunks(FollowOf(path))
  {
  }
}
