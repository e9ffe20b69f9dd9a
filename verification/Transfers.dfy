/** The three handlers of a file transfer as the programs write them: nested send loops in the
    source client, the chunk loop in the worker, the command loop in the target client. Reads
    and sends take any number of bytes and may fail at any time. */
module Transfers {
  import opened Wire
  import opened FileServer
  import opened Options
  import opened ServerRuns

  /** A stream the program writes to; `broken` once a `send` has failed. */
  class ByteSink {
    var sent: string
    var broken: bool

    constructor ()
      ensures sent == "" && !broken
    {
      sent, broken := "", false;
    }

    /** One `send`: an error, or any positive part of the bytes. */
    method Send(bytes: string) returns (n: int)
      requires bytes != ""
      modifies this
      ensures n == -1 || 1 <= n <= |bytes|
      ensures broken <==> old(broken) || n == -1
      ensures sent == old(sent) + (if n < 0 then "" else bytes[..n])
    {
      if * {
        broken := true;
        n := -1;
      } else {
        var k: nat :| 1 <= k <= |bytes|;
        sent := sent + bytes[..k];
        n := k;
      }
    }

    /** A `send` of a few bytes whose result the program ignores; it is taken whole. */
    method SendShort(bytes: string)
      modifies this`sent
      ensures sent == old(sent) + bytes
    {
      sent := sent + bytes;
    }
  }

  /** A stream the program reads from; "" stands for the end of the stream or an error, and
      `dry` records that a read has yielded nothing. */
  class ByteSource {
    var pending: string
    var dry: bool

    constructor (pending: string)
      ensures this.pending == pending && !dry
    {
      this.pending, dry := pending, false;
    }

    method Recv(limit: nat) returns (bytes: string)
      modifies this
      ensures |bytes| <= limit && old(pending) == bytes + pending
      ensures dry <==> old(dry) || bytes == ""
    {
      var k: nat :| k <= |pending| && k <= limit;
      bytes := pending[..k];
      pending := pending[k..];
      dry := dry || k == 0;
    }
  }

  /** The stream to the target, as the sequence of sends. */
  class CommandSink {
    var sends: seq<string>

    constructor ()
      ensures sends == []
    {
      sends := [];
    }

    method Send(text: string)
      modifies this
      ensures sends == old(sends) + [text]
    {
      sends := sends + [text];
    }
  }

  lemma PieceOfContent(content: string, position: nat, bytesRead: nat, bytesSent: nat, sent: nat)
    requires position + bytesRead <= |content| && bytesSent + sent <= bytesRead
    ensures content[..position + bytesSent] + content[position..position + bytesRead][bytesSent..][..sent]
      == content[..position + bytesSent + sent]
  {
  }

  /** An open file; `failed` once a `read` has failed. */
  class SourceFile {
    const content: string
    var position: nat
    var failed: bool

    constructor (content: string)
      ensures this.content == content && position == 0 && !failed
    {
      this.content := content;
      position, failed := 0, false;
    }

    /** One `read`: "" at the end of the file or after an error, else some of what comes next. */
    method Read(limit: nat) returns (bytes: string)
      requires position <= |content| && limit > 0
      modifies this
      ensures position == old(position) + |bytes| <= |content| && |bytes| <= limit
      ensures bytes == content[old(position)..position]
      ensures failed ==> old(failed) || bytes == ""
      ensures bytes == "" ==> failed || position == |content|
    {
      if * {
        failed := true;
        return "";
      }
      var k: nat :| k <= limit && k <= |content| - position && (k == 0 ==> position == |content|);
      bytes := content[position..position + k];
      position := position + k;
    }
  }

  ghost predicate SentUpTo(content: string, n: nat, before: string, after: string) {
    n <= |content| && after == before + Header(|content|) + content[..n]
  }

  /** `handle_pull_command`; `file` is null when it cannot be opened. However reads and sends
      cut the data, what goes out is the header and the content, all of it unless a read or a
      send has failed. */
  method HandlePull(file: SourceFile?, message: string, out: ByteSink)
    requires file != null ==> file.position == 0 && !file.failed
    modifies file, out
    ensures file == null ==> out.sent == old(out.sent) + PullError(message)
    ensures file != null ==>
      exists n: nat :: SentUpTo(file.content, n, old(out.sent), out.sent)
        && (n < |file.content| ==> file.failed || out.broken)
  {
    if file == null {
      out.SendShort(PullError(message));
      return;
    }
    out.SendShort(Header(|file.content|));
    ghost var start := out.sent;
    while true
      invariant file.position <= |file.content| && !file.failed
      invariant out.sent == start + file.content[..file.position]
      decreases |file.content| - file.position
    {
      ghost var position := file.position;
      var buffer := file.Read(MAX_BUFFER);
      if |buffer| == 0 {
        break;
      }
      var bytesSent := 0;
      while bytesSent < |buffer|
        invariant 0 <= bytesSent <= |buffer|
        invariant file.position == position + |buffer| && !file.failed
        invariant out.sent == start + file.content[..position + bytesSent]
      {
        var sent := out.Send(buffer[bytesSent..]);
        if sent < 0 {
          assert SentUpTo(file.content, position + bytesSent, old(out.sent), out.sent);
          return;
        }
        PieceOfContent(file.content, position, |buffer|, bytesSent, sent);
        bytesSent := bytesSent + sent;
      }
    }
    assert SentUpTo(file.content, file.position, old(out.sent), out.sent);
  }

  lemma {:induction false} ConcatAppend(chunks: seq<string>, chunk: string)
    ensures Concat(chunks + [chunk]) == Concat(chunks) + chunk
  {
    if chunks == [] {
      assert [chunk][1..] == [];
    } else {
      assert (chunks + [chunk])[1..] == chunks[1..] + [chunk];
      ConcatAppend(chunks[1..], chunk);
    }
  }

  lemma {:induction false} ChunkSendsAppend(path: string, chunks: seq<string>, chunk: string)
    ensures ChunkSends(path, chunks + [chunk])
      == ChunkSends(path, chunks) + [PushCommand(path, |chunk|), chunk]
  {
    if chunks == [] {
      assert [chunk][1..] == [];
    } else {
      assert (chunks + [chunk])[1..] == chunks[1..] + [chunk];
      ChunkSendsAppend(path, chunks[1..], chunk);
    }
  }

  /** One chunk on its way: the command, then the bytes. */
  method SendChunk(target: CommandSink, path: string, chunk: string,
                   ghost start: seq<string>, ghost chunks: seq<string>)
    requires target.sends == start + ChunkSends(path, chunks)
    modifies target
    ensures target.sends == start + ChunkSends(path, chunks + [chunk])
  {
    target.Send(PushCommand(path, |chunk|));
    target.Send(chunk);
    ChunkSendsAppend(path, chunks, chunk);
  }

  lemma Regroup(skipped: string, a: string, x: string, b: string)
    ensures skipped + (a + (x + b)) == skipped + ((a + x) + b)
  {
  }

  /** The chunk loop: it stops when `size` bytes have gone on, or when a read yields nothing. */
  method RelayChunks(source: ByteSource, path: string, target: CommandSink, size: int, sofar: nat,
                     ghost start: seq<string>, ghost before: seq<string>)
    returns (total: nat, ghost chunks: seq<string>)
    requires target.sends == start + ChunkSends(path, before)
    requires NonEmptySends(before) && sofar == |Concat(before)|
    modifies source, target
    ensures target.sends == start + ChunkSends(path, chunks)
    ensures NonEmptySends(chunks) && total == |Concat(chunks)|
    ensures Concat(before) + old(source.pending) == Concat(chunks) + source.pending
    ensures total < size ==> source.dry
    ensures !old(source.dry) && source.dry ==> total < size
  {
    total, chunks := sofar, before;
    while total < size
      invariant target.sends == start + ChunkSends(path, chunks)
      invariant NonEmptySends(chunks) && total == |Concat(chunks)|
      invariant Concat(before) + old(source.pending) == Concat(chunks) + source.pending
      invariant source.dry == old(source.dry)
    {
      var chunk := source.Recv(MAX_BUFFER);
      if |chunk| == 0 {
        break;
      }
      SendChunk(target, path, chunk, start, chunks);
      ConcatAppend(chunks, chunk);
      Regroup("", Concat(chunks), chunk, source.pending);
      chunks := chunks + [chunk];
      total := total + |chunk|;
    }
  }

  /** `sync_single_file` once both connections stand and the PULL command is out. What it
      sends is a complete PUSH series of the bytes it read behind the header, in order. */
  method SyncSingleFile(source: ByteSource, path: string, target: CommandSink)
    returns (rc: int, total: nat, ghost first: string, ghost chunks: seq<string>)
    modifies source, target
    ensures first <= old(source.pending)
    ensures rc == -1 <==> first == "" || ParseHeader(first).NoHeader? || ParseHeader(first).size < 0
    ensures rc == -1 ==> target.sends == old(target.sends)
    ensures rc != -1 ==>
      && rc == 0 && ParseHeader(first).headerLength <= |first|
      && target.sends == old(target.sends) + Sends(Series(path, chunks, Complete))
      && NonEmptySends(chunks) && total == |Concat(chunks)|
      && old(source.pending)[ParseHeader(first).headerLength..] == Concat(chunks) + source.pending
      && (!old(source.dry) ==> (source.dry <==> total < ParseHeader(first).size))
  {
    total, chunks := 0, [];
    var response := source.Recv(MAX_BUFFER - 1);
    first := response;
    if response == "" {
      return -1, total, first, chunks;
    }
    var header := ParseHeader(response);
    if header.NoHeader? {
      return -1, total, first, chunks;
    }
    if header.size < 0 {
      return -1, total, first, chunks;
    }
    target.Send(PushCommand(path, -1));
    ghost var start := target.sends;
    var data := response[header.headerLength..];
    ghost var one := if data == "" then [] else [data];
    assert Concat(one) == data;
    if |response| > header.headerLength {
      SendChunk(target, path, data, start, []);
      total := total + |data|;
    }
    CutPrefix(first, source.pending, header.headerLength);
    total, chunks := RelayChunks(source, path, target, header.size, total, start, one);
    target.Send(PushCommand(path, 0));
    SendsOfSeries(old(target.sends), path, chunks);
    rc := 0;
  }

  lemma CutPrefix(first: string, rest: string, n: nat)
    requires n <= |first|
    ensures (first + rest)[n..] == first[n..] + rest
  {
  }

  lemma SendsOfSeries(before: seq<string>, path: string, chunks: seq<string>)
    ensures before + [PushCommand(path, -1)] + ChunkSends(path, chunks) + [PushCommand(path, 0)]
      == before + Sends(Series(path, chunks, Complete))
  {
  }

  lemma {:induction false} ChunkSendsNonEmpty(path: string, chunks: seq<string>)
    requires NonEmptySends(chunks)
    ensures NonEmptySends(ChunkSends(path, chunks))
  {
    if chunks != [] {
      ChunkSendsNonEmpty(path, chunks[1..]);
    }
  }

  /** What the relayed bytes are when the stream is a reply that may have been cut short. */
  lemma {:induction false} RelayedIsPrefix(content: string, n: nat, stream: string,
                                           first: string, rest: string, relayed: string)
    requires n <= |content| && stream == Header(|content|) + content[..n] && first <= stream
    requires ParseHeader(first).Announced? && ParseHeader(first).headerLength <= |first|
    requires stream[ParseHeader(first).headerLength..] == relayed + rest
    ensures |relayed| <= n && relayed == content[..|relayed|] && ParseHeader(first).size == |content|
  {
    HeaderOfStream(content, n, stream, first);
    assert content[..n] == relayed + rest;
    PrefixOfPrefix(content, n, relayed, rest);
  }

  lemma PrefixOfPrefix(content: string, n: nat, relayed: string, rest: string)
    requires n <= |content| && content[..n] == relayed + rest
    ensures |relayed| <= n && relayed == content[..|relayed|]
  {
    assert content[..n][..|relayed|] == (relayed + rest)[..|relayed|];
  }

  lemma HeaderOfStream(content: string, n: nat, stream: string, first: string)
    requires n <= |content| && stream == Header(|content|) + content[..n] && first <= stream
    requires ParseHeader(first).Announced?
    ensures ParseHeader(first) == Announced(|content|, |Header(|content|)|)
  {
    assert stream <= PullReply(content);
    assert first == PullReply(content)[..|first|];
    HeaderReadIff(content, |first|);
  }

  /** The three handlers one after the other; `content` is absent for a source file that cannot
      be opened. Whatever is cut or fails on the way, a return value of 0 means that there is
      a source file and the target file is a prefix of it of the length reported, all of it
      unless a read came up empty (`cut`), and any other value that no file has changed. */
  method CopyFile(content: Option<string>, message: string, path: string, client: Client)
    returns (rc: int, total: nat, ghost cut: bool)
    requires client.State().Valid() && IsPathWord(path)
    modifies client
    ensures client.State().Valid()
    ensures rc == 0 ==> content.Some? && client.open == map[]
    ensures rc == 0 ==> total <= |content.value| && (total == |content.value| <==> !cut)
    ensures rc == 0 ==> client.disk == old(client.disk)[Relative(path) := content.value[..total]]
    ensures rc != 0 ==> rc == -1 && client.disk == old(client.disk)
  {
    var out := new ByteSink();
    var file: SourceFile? := null;
    if content.Some? {
      file := new SourceFile(content.value);
    }
    HandlePull(file, message, out);
    var source := new ByteSource(out.sent);
    var target := new CommandSink();
    ghost var first, chunks;
    rc, total, first, chunks := SyncSingleFile(source, path, target);
    cut := source.dry;
    if content.None? {
      RefusedReply(message, out.sent, first);
    } else if rc == 0 {
      ghost var n := SentLength(content.value, out.sent);
      RelayedIsPrefix(content.value, n, out.sent, first, source.pending, Concat(chunks));
      ServeCompleteSeries(client.State(), path, chunks);
    }
    var conn := new Connection(target.sends);
    client.HandleClientConnection(conn);
  }

  lemma RefusedReply(message: string, sent: string, first: string)
    requires sent == "" + PullError(message) && first <= sent
    ensures ParseHeader(first).NoHeader? || ParseHeader(first).size < 0
  {
    assert sent == PullError(message);
    assert first == PullError(message)[..|first|];
    ErrorReplyIsRefused(message, |first|);
  }

  lemma NothingBefore(sends: seq<string>)
    requires NonEmptySends(sends)
    ensures [] + sends == sends && NonEmptySends([] + sends)
  {
  }

  lemma SendsNonEmpty(path: string, chunks: seq<string>)
    requires NonEmptySends(chunks)
    ensures NonEmptySends(Sends(Series(path, chunks, Complete)))
  {
    ChunkSendsNonEmpty(path, chunks);
  }

  lemma ServeCompleteSeries(sv: Server, path: string, chunks: seq<string>)
    requires sv.Valid() && IsPathWord(path) && NonEmptySends(chunks)
    ensures var x := Series(path, chunks, Complete);
      && NonEmptySends([] + Sends(x)) && [] + Sends(x) == Sends(x)
      && Serve(sv, Sends(x)).open == map[]
      && Serve(sv, Sends(x)).disk == sv.disk[Relative(path) := Concat(chunks)]
  {
    SendsNonEmpty(path, chunks);
    NothingBefore(Sends(Series(path, chunks, Complete)));
    assert Concat(chunks) + "" == Concat(chunks);
    ServeSeries(sv, Series(path, chunks, Complete));
  }

  lemma SentLength(content: string, sent: string) returns (n: nat)
    requires exists n: nat :: SentUpTo(content, n, "", sent)
    ensures n <= |content| && sent == Header(|content|) + content[..n]
  {
    n :| SentUpTo(content, n, "", sent);
  }
}
