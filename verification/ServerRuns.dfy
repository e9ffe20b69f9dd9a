/** Whole lives of a receiving client: any sequence of connections, served one at a time
    (`src/nfs_client.c:25-43`), each carrying one PUSH series that may break off anywhere. */
module ServerRuns {
  import opened Wire
  import opened FileServer

  datatype Ending =
    | Complete                                       // the closing PUSH arrived
    | BrokenBetween                                  // gone between two chunks
    | BrokenInside(announced: nat, received: string) // gone inside a chunk

  /** What one worker sent for one file before its connection ended. */
  datatype Series = Series(path: string, chunks: seq<string>, ending: Ending)

  ghost predicate IsSeries(x: Series) {
    && IsPathWord(x.path) && NonEmptySends(x.chunks)
    && (x.ending.BrokenInside? ==> |x.ending.received| < x.ending.announced)
  }

  function ChunkSends(path: string, chunks: seq<string>): seq<string> {
    if chunks == [] then []
    else [PushCommand(path, |chunks[0]|), chunks[0]] + ChunkSends(path, chunks[1..])
  }

  function EndSends(x: Series): seq<string> {
    match x.ending
    case Complete => [PushCommand(x.path, 0)]
    case BrokenBetween => []
    case BrokenInside(n, received) =>
      [PushCommand(x.path, n)] + (if received == "" then [] else [received])
  }

  function Sends(x: Series): seq<string> {
    [PushCommand(x.path, -1)] + (ChunkSends(x.path, x.chunks) + EndSends(x))
  }

  function Concat(chunks: seq<string>): string {
    if chunks == [] then "" else chunks[0] + Concat(chunks[1..])
  }

  /** The bytes of the series that reached the client. */
  function Content(x: Series): string {
    Concat(x.chunks) + (if x.ending.BrokenInside? then x.ending.received else "")
  }

  lemma ServePush(sv: Server, path: string, chunk: int, rest: seq<string>)
    requires IsPathWord(path)
    ensures Serve(sv, [PushCommand(path, chunk)] + rest)
      == (var next := PushEffect(sv, rest, path, chunk); Serve(next.0, next.1))
  {
    PushRoundTripIff(path, chunk);
    assert ([PushCommand(path, chunk)] + rest)[1..] == rest;
  }

  lemma WrittenContent(sv: Server, bytes: string)
    requires sv.Valid() && sv.current >= 0
    ensures sv.Written(bytes).Valid() && sv.Written(bytes).current == sv.current
    ensures sv.Written(bytes).open == sv.open
    ensures sv.Written(bytes).disk == sv.disk[sv.open[sv.current] := sv.disk[sv.open[sv.current]] + bytes]
  {
  }

  lemma ServeOneChunk(sv: Server, path: string, chunk: string, rest: seq<string>)
    requires sv.Valid() && sv.current >= 0 && IsPathWord(path) && chunk != ""
    ensures Serve(sv, [PushCommand(path, |chunk|)] + ([chunk] + rest)) == Serve(sv.Written(chunk), rest)
  {
    var sends := [chunk] + rest;
    ServePush(sv, path, |chunk|, sends);
    assert sends[1..] == rest;
    assert Receive(sv, sends, |chunk|) == Receive(sv.Written(chunk), rest, 0);
  }

  lemma ChunkSendsStep(path: string, chunks: seq<string>, rest: seq<string>)
    requires chunks != []
    ensures ChunkSends(path, chunks) + rest
      == [PushCommand(path, |chunks[0]|)] + ([chunks[0]] + (ChunkSends(path, chunks[1..]) + rest))
  {
  }

  lemma WrittenNothing(sv: Server)
    requires sv.Valid() && sv.current >= 0
    ensures sv.Written("") == sv
  {
    assert sv.disk[sv.open[sv.current]] + "" == sv.disk[sv.open[sv.current]];
    assert sv.disk[sv.open[sv.current] := sv.disk[sv.open[sv.current]]] == sv.disk;
  }

  lemma {:induction false} ServeChunks(sv: Server, path: string, chunks: seq<string>, rest: seq<string>)
    requires sv.Valid() && sv.current >= 0 && IsPathWord(path) && NonEmptySends(chunks)
    ensures Serve(sv, ChunkSends(path, chunks) + rest) == Serve(sv.Written(Concat(chunks)), rest)
    decreases |chunks|
  {
    if chunks == [] {
      assert ChunkSends(path, chunks) + rest == rest;
      WrittenNothing(sv);
    } else {
      ChunkSendsStep(path, chunks, rest);
      ServeOneChunk(sv, path, chunks[0], ChunkSends(path, chunks[1..]) + rest);
      WrittenTwice(sv, chunks[0], Concat(chunks[1..]));
      ServeChunks(sv.Written(chunks[0]), path, chunks[1..], rest);
    }
  }

  lemma ServeEnding(sv: Server, x: Series)
    requires sv.Valid() && sv.current >= 0 && IsSeries(x)
    ensures var sv' := Serve(sv, EndSends(x));
      && sv'.Valid() && (x.ending == Complete ==> sv'.current == -1)
      && sv'.disk == sv.Written(if x.ending.BrokenInside? then x.ending.received else "").disk
  {
    WrittenNothing(sv);
    match x.ending
    case Complete =>
      ServePush(sv, x.path, 0, []);
      assert [PushCommand(x.path, 0)] + [] == [PushCommand(x.path, 0)];
    case BrokenBetween =>
    case BrokenInside(n, received) =>
      var rest := if received == "" then [] else [received];
      ServePush(sv, x.path, n, rest);
      if received != "" {
        assert Receive(sv, rest, n) == Receive(sv.Written(received), rest[1..], n - |received|);
      }
  }

  lemma OpenedIsEmpty(sv: Server, path: string)
    requires sv.Valid()
    ensures var sv' := sv.Opened(path);
      && sv'.Valid() && sv'.current >= 0 && sv'.open[sv'.current] == Relative(path)
      && sv'.disk == sv.disk[Relative(path) := ""]
  {
    if sv.current >= 0 {
      assert sv.open - {sv.current} == map[];
    }
  }

  lemma ServeStart(sv: Server, path: string, rest: seq<string>)
    requires sv.Valid() && IsPathWord(path)
    ensures Serve(sv, [PushCommand(path, -1)] + rest) == Serve(sv.Opened(path), rest)
  {
    ServePush(sv, path, -1, rest);
  }

  lemma WrittenAfterOpened(sv: Server, path: string, first: string, last: string)
    requires sv.Valid()
    ensures sv.Opened(path).Written(first).Written(last).disk == sv.disk[Relative(path) := first + last]
    ensures var sv' := sv.Opened(path).Written(first);
      sv'.Valid() && sv'.current >= 0
  {
    var start := sv.Opened(path);
    OpenedIsEmpty(sv, path);
    WrittenContent(start, first);
    WrittenContent(start.Written(first), last);
    assert "" + first == first;
    assert sv.disk[Relative(path) := ""][Relative(path) := first] == sv.disk[Relative(path) := first];
    assert sv.disk[Relative(path) := first][Relative(path) := first + last]
      == sv.disk[Relative(path) := first + last];
  }

  /** One connection leaves its file with exactly the bytes that arrived, every other file as
      it was, and at most one descriptor open, none after a complete series. */
  lemma {:induction false} ServeSeries(sv: Server, x: Series)
    requires sv.Valid() && IsSeries(x)
    ensures var sv' := Serve(sv, Sends(x));
      && sv'.Valid() && |sv'.open| <= 1
      && sv'.disk == sv.disk[Relative(x.path) := Content(x)]
      && (x.ending == Complete ==> sv'.open == map[])
  {
    var last := if x.ending.BrokenInside? then x.ending.received else "";
    ServeStart(sv, x.path, ChunkSends(x.path, x.chunks) + EndSends(x));
    OpenedIsEmpty(sv, x.path);
    ServeChunks(sv.Opened(x.path), x.path, x.chunks, EndSends(x));
    WrittenAfterOpened(sv, x.path, Concat(x.chunks), last);
    ServeEnding(sv.Opened(x.path).Written(Concat(x.chunks)), x);
  }

  function ServeAll(sv: Server, connections: seq<Series>): Server {
    if connections == [] then sv
    else Serve(ServeAll(sv, connections[..|connections| - 1]), Sends(connections[|connections| - 1]))
  }

  /** The reference: files are replaced by what arrived for them, in order. */
  function Replay(disk: map<string, string>, connections: seq<Series>): map<string, string> {
    if connections == [] then disk
    else
      var last := connections[|connections| - 1];
      Replay(disk, connections[..|connections| - 1])[Relative(last.path) := Content(last)]
  }

  /** Over any sequence of connections the files are those of the replay: no transfer leaks
      into another, not even after one that broke off and left its descriptor open. */
  lemma {:induction false} RunsReplay(sv: Server, connections: seq<Series>)
    requires sv.Valid() && forall i :: 0 <= i < |connections| ==> IsSeries(connections[i])
    ensures ServeAll(sv, connections).Valid() && |ServeAll(sv, connections).open| <= 1
    ensures ServeAll(sv, connections).disk == Replay(sv.disk, connections)
  {
    if connections != [] {
      RunsReplay(sv, connections[..|connections| - 1]);
      ServeSeries(ServeAll(sv, connections[..|connections| - 1]), connections[|connections| - 1]);
    }
  }

  /** A file for which no series came is as it was. */
  lemma {:induction false} ReplayUntouched(disk: map<string, string>, xs: seq<Series>, file: string)
    requires forall i :: 0 <= i < |xs| ==> Relative(xs[i].path) != file
    ensures file in Replay(disk, xs) <==> file in disk
    ensures file in disk ==> Replay(disk, xs)[file] == disk[file]
  {
    if xs != [] {
      ReplayUntouched(disk, xs[..|xs| - 1], file);
    }
  }

  /** A file holds what the last series for it brought, whatever came for other files. */
  lemma {:induction false} ReplayKeepsLast(disk: map<string, string>, xs: seq<Series>, i: nat)
    requires i < |xs|
    requires forall j :: i < j < |xs| ==> Relative(xs[j].path) != Relative(xs[i].path)
    ensures Relative(xs[i].path) in Replay(disk, xs)
    ensures Replay(disk, xs)[Relative(xs[i].path)] == Content(xs[i])
  {
    if i < |xs| - 1 {
      ReplayKeepsLast(disk, xs[..|xs| - 1], i);
    }
  }

  /** The paths name one file: they are equal up to one leading slash. */
  predicate SameFile(p: string, q: string) {
    p == q || (p == "/" + q && !Absolute(q)) || (q == "/" + p && !Absolute(p))
  }

  /** Two series whose paths do not name the same file both end on the disk with their own
      contents, in either order; of two that do, the later one wins. */
  lemma TwoSeries(sv: Server, x: Series, y: Series)
    requires sv.Valid() && IsSeries(x) && IsSeries(y)
    ensures Relative(y.path) in ServeAll(sv, [x, y]).disk && Relative(x.path) in ServeAll(sv, [x, y]).disk
    ensures ServeAll(sv, [x, y]).disk[Relative(y.path)] == Content(y)
    ensures ServeAll(sv, [x, y]).disk[Relative(x.path)]
      == if SameFile(x.path, y.path) then Content(y) else Content(x)
  {
    SameFileIff(x.path, y.path);
    RunsReplay(sv, [x, y]);
    ReplayKeepsLast(sv.disk, [x, y], 1);
    if !SameFile(x.path, y.path) {
      ReplayKeepsLast(sv.disk, [x, y], 0);
    }
  }
}
