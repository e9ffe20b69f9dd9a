/** The receiving client: `handle_push_command` with its static descriptor and the command
    loop of `handle_client_connection` (`src/nfs_client_logic.c`). */
module FileServer {
  import opened Wire

  /** Files are opened relative to the client's directory. */
  function Relative(path: string): string {
    if path != "" && path[0] == '/' then path[1..] else path
  }

  predicate Absolute(path: string) { path != "" && path[0] == '/' }

  /** One leading slash is taken off; any other path is kept. */
  lemma RelativeOf(path: string)
    ensures Relative("/" + path) == path
    ensures !Absolute(path) ==> Relative(path) == path
  {
    assert ("/" + path)[1..] == path;
  }

  /** Two paths name the same file exactly if they are equal, or one is the other, which has no
      leading slash, with a slash put in front. */
  lemma SameFileIff(p: string, q: string)
    ensures Relative(p) == Relative(q) <==>
      p == q || (p == "/" + q && !Absolute(q)) || (q == "/" + p && !Absolute(p))
  {
    RelativeOf(p);
    RelativeOf(q);
    if Absolute(p) {
      assert p == "/" + p[1..];
      RelativeOf(p[1..]);
    }
    if Absolute(q) {
      assert q == "/" + q[1..];
      RelativeOf(q[1..]);
    }
  }

  /** The static `current_fd`, the descriptors the handler has open for writing, and the files.
      Descriptor numbers are never reused here. */
  datatype Server = Server(current: int, open: map<int, string>, nextFd: nat, disk: map<string, string>) {
    /** At most one descriptor is open, and it is the current one. */
    ghost predicate Valid() {
      && -1 <= current < nextFd
      && (current == -1 ==> open == map[])
      && (current >= 0 ==> current in open && open == map[current := open[current]] && open[current] in disk)
    }

    function Closed(): Server {
      if current >= 0 then this.(current := -1, open := open - {current}) else this
    }

    /** The descriptor in use is closed, the new file truncated. */
    function Opened(path: string): Server {
      var rest := if current >= 0 then open - {current} else open;
      Server(nextFd, rest[nextFd := Relative(path)], nextFd + 1, disk[Relative(path) := ""])
    }

    function Written(bytes: string): Server {
      if current in open && open[current] in disk
      then this.(disk := disk[open[current] := disk[open[current]] + bytes])
      else this
    }
  }

  // ---------------------------------------------------------------- what a connection does

  /** The receive loop for a chunk of `n` bytes, on the sends still to come. */
  function Receive(sv: Server, sends: seq<string>, n: int): (r: (Server, seq<string>))
    ensures |r.1| <= |sends|
    decreases |sends|
  {
    if n <= 0 || sends == [] then (sv, sends)
    else if |sends[0]| <= n then Receive(sv.Written(sends[0]), sends[1..], n - |sends[0]|)
    else (sv.Written(sends[0][..n]), [sends[0][n..]] + sends[1..])
  }

  function PushEffect(sv: Server, sends: seq<string>, path: string, chunk: int): (r: (Server, seq<string>))
    ensures |r.1| <= |sends|
  {
    if chunk == -1 then (sv.Opened(path), sends)
    else if chunk == 0 then (sv.Closed(), sends)
    else if sv.current < 0 then (sv, sends)
    else Receive(sv, sends, chunk)
  }

  /** A whole connection: commands and their payload until the peer is gone. */
  function Serve(sv: Server, sends: seq<string>): Server
    decreases |sends|
  {
    if sends == [] then sv
    else
      match ParseRequest(sends[0])
      case Push(path, chunk) =>
        var next := PushEffect(sv, sends[1..], path, chunk);
        Serve(next.0, next.1)
      case _ => Serve(sv, sends[1..])
  }

  /** A command that is no PUSH only reads: LIST, PULL, and whatever is not understood. */
  lemma ReadingChangesNothing(sv: Server, command: string, rest: seq<string>)
    requires !ParseRequest(command).Push?
    ensures Serve(sv, [command] + rest) == Serve(sv, rest)
  {
    assert ([command] + rest)[1..] == rest;
  }

  lemma PullChangesNothing(sv: Server, path: string, rest: seq<string>)
    requires '\0' !in path
    ensures Serve(sv, [PullCommand(path)] + rest) == Serve(sv, rest)
  {
    PullIsRead(path);
    ReadingChangesNothing(sv, PullCommand(path), rest);
  }

  lemma ListChangesNothing(sv: Server, dir: string, rest: seq<string>)
    requires '\0' !in dir
    ensures Serve(sv, [ListCommand(dir)] + rest) == Serve(sv, rest)
  {
    ListIsRead(dir);
    ReadingChangesNothing(sv, ListCommand(dir), rest);
  }

  /** A chunk, or an end, without an open file changes nothing. */
  lemma StrayPushChangesNothing(sv: Server, path: string, chunk: int, rest: seq<string>)
    requires sv.current == -1 && chunk != -1 && IsPathWord(path)
    ensures Serve(sv, [PushCommand(path, chunk)] + rest) == Serve(sv, rest)
  {
    PushRoundTripIff(path, chunk);
    assert ([PushCommand(path, chunk)] + rest)[1..] == rest;
  }

  ghost predicate NonEmptySends(sends: seq<string>) {
    forall i :: 0 <= i < |sends| ==> sends[i] != ""
  }

  function Drop(sends: seq<string>, k: nat): seq<string>
    requires sends != [] && k <= |sends[0]|
  {
    if k == |sends[0]| then sends[1..] else [sends[0][k..]] + sends[1..]
  }

  /** Taking `k` bytes first and the rest later is the same as taking all of them: how the
      payload is cut into reads does not matter. */
  lemma {:induction false} ReceiveInPieces(sv: Server, sends: seq<string>, n: int, k: nat)
    requires NonEmptySends(sends) && sends != [] && 1 <= k <= |sends[0]| && k <= n
    requires sv.Valid() && sv.current >= 0
    ensures Receive(sv.Written(sends[0][..k]), Drop(sends, k), n - k) == Receive(sv, sends, n)
    ensures NonEmptySends(Drop(sends, k))
  {
    var head := sends[0];
    if k < |head| {
      assert Drop(sends, k)[1..] == sends[1..];
      if |head| <= n {
        assert head[..k] + head[k..] == head;
        WrittenTwice(sv, head[..k], head[k..]);
      } else {
        assert head[k..][..n - k] == head[k..n];
        assert head[..k] + head[k..n] == head[..n];
        assert head[k..][n - k..] == head[n..];
        WrittenTwice(sv, head[..k], head[k..n]);
        if n == k {
          assert head[k..n] == "";
          assert sv.Written(head[..n]).Written("") == sv.Written(head[..n]);
        }
      }
    } else {
      assert head[..k] == head;
    }
  }

  lemma WrittenTwice(sv: Server, a: string, b: string)
    requires sv.Valid() && sv.current >= 0
    ensures sv.Written(a).Valid() && sv.Written(a).current == sv.current
    ensures sv.Written(a).Written(b) == sv.Written(a + b)
  {
    assert (sv.disk[sv.open[sv.current]] + a) + b == sv.disk[sv.open[sv.current]] + (a + b);
  }

  // ---------------------------------------------------------------- the handlers

  /** The sends of the peer that have not been received, then the end of the stream. */
  class Connection {
    var sends: seq<string>

    ghost predicate Valid()
      reads this
    {
      NonEmptySends(sends)
    }

    constructor (sends: seq<string>)
      requires NonEmptySends(sends)
      ensures Valid() && this.sends == sends
    {
      this.sends := sends;
    }

    /** A command arrives whole and alone. */
    method ReceiveCommand() returns (text: string)
      requires Valid()
      modifies this
      ensures Valid()
      ensures old(sends) == [] ==> text == "" && sends == []
      ensures old(sends) != [] ==> text == old(sends)[0] && sends == old(sends)[1..]
    {
      if sends == [] {
        text := "";
      } else {
        text := sends[0];
        sends := sends[1..];
      }
    }

    /** Payload arrives in pieces of any size. */
    method ReceivePayload(limit: nat) returns (bytes: string)
      requires Valid() && limit > 0
      modifies this
      ensures Valid()
      ensures old(sends) == [] ==> bytes == "" && sends == []
      ensures old(sends) != [] ==>
        && 1 <= |bytes| <= |old(sends)[0]| && |bytes| <= limit
        && bytes == old(sends)[0][..|bytes|] && sends == Drop(old(sends), |bytes|)
    {
      if sends == [] {
        bytes := "";
      } else {
        var k: nat :| 1 <= k <= |sends[0]| && k <= limit;
        bytes := sends[0][..k];
        sends := Drop(sends, k);
      }
    }
  }

  const MAX_BUFFER: nat := 8192

  class Client {
    var currentFd: int
    var open: map<int, string>
    var nextFd: nat
    var disk: map<string, string>

    ghost function State(): Server
      reads this
    {
      Server(currentFd, open, nextFd, disk)
    }

    constructor (disk: map<string, string>)
      ensures State() == Server(-1, map[], 0, disk) && State().Valid()
    {
      currentFd, open, nextFd, this.disk := -1, map[], 0, disk;
    }

    /** `handle_push_command`; opening the file succeeds. */
    method HandlePush(conn: Connection, path: string, chunkSize: int)
      requires State().Valid() && conn.Valid()
      modifies this, conn
      ensures State().Valid() && conn.Valid()
      ensures (State(), conn.sends) == PushEffect(old(State()), old(conn.sends), path, chunkSize)
    {
      if chunkSize == -1 {
        if currentFd >= 0 {
          open := open - {currentFd};
        }
        currentFd := nextFd;
        nextFd := nextFd + 1;
        open := open[currentFd := Relative(path)];
        disk := disk[Relative(path) := ""];
        return;
      }
      if chunkSize == 0 {
        if currentFd >= 0 {
          open := open - {currentFd};
          currentFd := -1;
        }
        return;
      }
      if currentFd < 0 {
        return;
      }
      var totalReceived := 0;
      while totalReceived < chunkSize
        invariant State().Valid() && conn.Valid() && currentFd == old(currentFd)
        invariant 0 <= totalReceived && (chunkSize > 0 ==> totalReceived <= chunkSize)
        invariant Receive(State(), conn.sends, chunkSize - totalReceived)
          == Receive(old(State()), old(conn.sends), chunkSize)
        decreases chunkSize - totalReceived
      {
        var toReceive := if chunkSize - totalReceived < MAX_BUFFER then chunkSize - totalReceived else MAX_BUFFER;
        ghost var before, state := conn.sends, State();
        var received := conn.ReceivePayload(toReceive);
        if |received| == 0 {
          return;
        }
        ReceiveInPieces(state, before, chunkSize - totalReceived, |received|);
        disk := disk[open[currentFd] := disk[open[currentFd]] + received];
        assert State() == state.Written(received);
        totalReceived := totalReceived + |received|;
      }
    }

    /** `handle_client_connection`. LIST and PULL only read, so they leave the state alone. */
    method HandleClientConnection(conn: Connection)
      requires State().Valid() && conn.Valid()
      modifies this, conn
      ensures State().Valid() && conn.sends == []
      ensures State() == Serve(old(State()), old(conn.sends))
    {
      while true
        invariant State().Valid() && conn.Valid()
        invariant Serve(State(), conn.sends) == Serve(old(State()), old(conn.sends))
        decreases |conn.sends|
      {
        ghost var before := conn.sends;
        var text := conn.ReceiveCommand();
        if |text| == 0 {
          break;
        }
        match ParseRequest(text)
        case Push(path, chunk) =>
          HandlePush(conn, path, chunk);
        case _ =>
      }
    }
  }
}
