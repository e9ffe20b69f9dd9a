/** The texts that cross the sockets: the LIST reply, the commands a client accepts, and the
    header in front of a PULL reply. Each side is read off its own program. */
module Wire {
  import opened Options
  import opened CText

  // ---------------------------------------------------------------- LIST reply

  /** One name per line, as the client sends them. */
  function Lines(names: seq<string>): string {
    if names == [] then "" else names[0] + ['\n'] + Lines(names[1..])
  }

  function ListReply(names: seq<string>): string {
    Lines(names) + ".\n"
  }

  predicate NotNewline(c: char) { c != '\n' }

  predicate IsNewline(c: char) { c == '\n' }

  /** `strtok(s, "\n")` (section 7.21.5.8): the next line and what is left behind it. */
  function NextLine(s: string): (r: Option<(string, string)>)
    ensures r.Some? ==> r.value.0 != "" && |r.value.1| < |s|
  {
    var t := s[Span(s, IsNewline)..];
    var n := Span(t, NotNewline);
    if t == "" then None else Some((t[..n], t[n..]))
  }

  /** The manager's `strtok` loop: lines in order up to the first ".". */
  function ParseListing(s: string): seq<string>
    decreases |s|
  {
    match NextLine(s)
    case None => []
    case Some(line) => if line.0 == "." then [] else [line.0] + ParseListing(line.1)
  }

  /** A name a client lists: not hidden, and one the text format can carry. */
  predicate Listable(name: string) {
    name != "" && name[0] != '.' && '\n' !in name && '\0' !in name
  }

  predicate AllListable(names: seq<string>) {
    forall i :: 0 <= i < |names| ==> Listable(names[i])
  }

  lemma NextLineOfSplit(line: string, rest: string)
    requires line != "" && '\n' !in line
    requires rest == "" || rest[0] == '\n'
    ensures NextLine(line + rest) == Some((line, rest))
  {
    var s := line + rest;
    assert Span(s, IsNewline) == 0 by { assert s[0] == line[0]; }
    assert s[0..] == s;
    SpanOfSplit(line, rest, NotNewline);
    assert s[..|line|] == line && s[|line|..] == rest;
  }

  lemma ParseListingLine(line: string, rest: string)
    requires line != "" && '\n' !in line && line != "."
    requires rest == "" || rest[0] == '\n'
    ensures ParseListing(line + rest) == [line] + ParseListing(rest)
  {
    NextLineOfSplit(line, rest);
  }

  lemma ParseListingSkipsNewline(s: string)
    ensures ParseListing(['\n'] + s) == ParseListing(s)
  {
    var n := Span(s, IsNewline);
    SpanOfSplit(['\n'] + s[..n], s[n..], IsNewline);
    assert ['\n'] + s == ['\n'] + s[..n] + s[n..];
    assert (['\n'] + s)[n + 1..] == s[n..];
  }

  lemma ParseListingEnd(m: nat)
    requires 1 <= m <= 2
    ensures ParseListing(".\n"[..m]) == []
  {
    var s := ".\n"[..m];
    assert s == "." + s[1..];
    NextLineOfSplit(".", s[1..]);
  }

  /** One `recv` of the first `n` bytes of a LIST reply yields exactly the names listed if and
      only if it lacks no more than the last name's newline and the end marker. */
  lemma {:induction false} ListingReadIff(names: seq<string>, n: nat)
    requires AllListable(names) && 1 <= n <= |ListReply(names)|
    ensures ParseListing(ListReply(names)[..n]) == names <==> n >= |Lines(names)| - 1
    decreases |names|
  {
    if names == [] {
      assert Lines(names) + ".\n" == ".\n";
      ParseListingEnd(n);
    } else {
      var name, rest := names[0], names[1..];
      assert Listable(name) && AllListable(rest);
      assert names == [name] + rest;
      assert Lines(names) == name + ['\n'] + Lines(rest);
      LinesLength(rest);
      if n <= |name| {
        ReadWithinFirstName(names, n);
        assert |names| == 1 + |rest|;
      } else {
        var m := n - |name| - 1;
        ReadBeyondFirstName(names, n);
        if m > 0 {
          ListingReadIff(rest, m);
        }
        assert ([name] + ParseListing(ListReply(rest)[..m]))[1..] == ParseListing(ListReply(rest)[..m]);
      }
    }
  }

  lemma LinesLength(names: seq<string>)
    requires AllListable(names)
    ensures names == [] ==> |Lines(names)| == 0
    ensures names != [] ==> |Lines(names)| >= 2
  {
    if names != [] {
      assert Listable(names[0]);
    }
  }

  lemma ReadWithinFirstName(names: seq<string>, n: nat)
    requires names != [] && Listable(names[0]) && 1 <= n <= |names[0]|
    requires n <= |ListReply(names)|
    ensures ParseListing(ListReply(names)[..n]) == [names[0][..n]]
    ensures n < |names[0]| ==> ParseListing(ListReply(names)[..n]) != names
    ensures n == |names[0]| ==> ParseListing(ListReply(names)[..n]) == [names[0]]
  {
    var part := names[0][..n];
    assert ListReply(names)[..n] == part + "";
    ParseListingLine(part, "");
    assert ParseListing("") == [];
    assert n < |names[0]| ==> [part][0] != names[0];
    assert n == |names[0]| ==> part == names[0];
  }

  lemma ReadBeyondFirstName(names: seq<string>, n: nat)
    requires names != [] && Listable(names[0]) && |names[0]| < n <= |ListReply(names)|
    ensures |ListReply(names)| == |names[0]| + 1 + |ListReply(names[1..])|
    ensures ParseListing(ListReply(names)[..n])
      == [names[0]] + ParseListing(ListReply(names[1..])[..n - |names[0]| - 1])
  {
    var name, tail := names[0], ListReply(names[1..])[..n - |names[0]| - 1];
    assert ListReply(names) == name + (['\n'] + ListReply(names[1..]));
    assert ListReply(names)[..n] == name + (['\n'] + tail);
    ParseListingLine(name, ['\n'] + tail);
    ParseListingSkipsNewline(tail);
  }

  /** The first `k` names, and if `m > 0` the first `m` characters of the next one, but not all
      of them. */
  predicate IsCut(names: seq<string>, k: nat, m: nat) {
    k <= |names| && (m > 0 ==> k < |names| && m < |names[k]|)
  }

  function CutAt(names: seq<string>, k: nat, m: nat): seq<string>
    requires IsCut(names, k, m)
  {
    names[..k] + (if m > 0 then [names[k][..m]] else [])
  }

  lemma CutLater(names: seq<string>, k: nat, m: nat)
    requires names != [] && IsCut(names[1..], k, m)
    ensures IsCut(names, k + 1, m) && CutAt(names, k + 1, m) == [names[0]] + CutAt(names[1..], k, m)
  {
    assert names[..k + 1] == [names[0]] + names[1..][..k];
  }

  lemma CutFirst(names: seq<string>, n: nat) returns (k: nat, m: nat)
    requires names != [] && 1 <= n <= |names[0]|
    ensures IsCut(names, k, m) && CutAt(names, k, m) == [names[0][..n]]
  {
    if n == |names[0]| {
      k, m := 1, 0;
      assert names[0][..n] == names[0] && names[..1] == [names[0]];
    } else {
      k, m := 0, n;
    }
  }

  /** What a read of the first `n` characters is understood as. */
  function Understood(names: seq<string>, n: nat): seq<string>
    requires n <= |ListReply(names)|
  {
    ParseListing(ListReply(names)[..n])
  }

  lemma UnderstoodFirst(names: seq<string>, n: nat)
    requires AllListable(names) && names != [] && 1 <= n <= |names[0]| && n <= |ListReply(names)|
    ensures Understood(names, n) == [names[0][..n]]
  {
    assert Listable(names[0]);
    ReadWithinFirstName(names, n);
  }

  lemma RestListable(names: seq<string>)
    requires AllListable(names) && names != []
    ensures Listable(names[0]) && AllListable(names[1..])
  {
  }

  lemma BeyondFirstName(names: seq<string>, n: nat, n': nat)
    requires names != [] && Listable(names[0]) && n' + |names[0]| + 1 == n <= |ListReply(names)|
    ensures n' <= |ListReply(names[1..])|
    ensures ParseListing(ListReply(names)[..n]) == [names[0]] + ParseListing(ListReply(names[1..])[..n'])
  {
    ReadBeyondFirstName(names, n);
  }

  lemma UnderstoodLater(names: seq<string>, n: nat, n': nat)
    requires names != [] && Listable(names[0]) && n' + |names[0]| + 1 == n <= |ListReply(names)|
    ensures n' <= |ListReply(names[1..])|
    ensures Understood(names, n) == [names[0]] + Understood(names[1..], n')
  {
    BeyondFirstName(names, n, n');
  }

  /** Whatever the length of the one `recv`, the manager gets a prefix of the names, and at
      most the last of them cut. */
  lemma {:induction false} ListingReadShort(names: seq<string>, n: nat) returns (k: nat, m: nat)
    requires AllListable(names) && n <= |ListReply(names)|
    ensures IsCut(names, k, m) && Understood(names, n) == CutAt(names, k, m)
    decreases |names|
  {
    if n == 0 || names == [] {
      k, m := 0, 0;
      NoNameRead(names, n);
    } else if n <= |names[0]| {
      UnderstoodFirst(names, n);
      k, m := CutFirst(names, n);
    } else {
      var n' := n - |names[0]| - 1;
      RestListable(names);
      UnderstoodLater(names, n, n');
      var k', m' := ListingReadShort(names[1..], n');
      CutLater(names, k', m');
      k, m := k' + 1, m';
    }
  }

  lemma NoNameRead(names: seq<string>, n: nat)
    requires n <= |ListReply(names)| && (n == 0 || names == [])
    ensures ParseListing(ListReply(names)[..n]) == []
  {
    if n == 0 {
      assert ListReply(names)[..0] == "";
    } else {
      assert ListReply(names) == ".\n";
      ParseListingEnd(n);
    }
  }

  /** One directory entry as `readdir` and `stat` describe it. */
  datatype DirEntry = DirEntry(name: string, isRegular: bool)

  function Visible(entries: seq<DirEntry>): seq<string> {
    if entries == [] then []
    else
      var last := entries[|entries| - 1];
      var before := Visible(entries[..|entries| - 1]);
      if last.name != "" && last.name[0] != '.' && last.isRegular then before + [last.name] else before
  }

  predicate IsVisible(e: DirEntry) { e.name != "" && e.name[0] != '.' && e.isRegular }

  /** What is listed: of several directories' entries one after the other what each lists, and of
      one entry its name, if it is a regular file that is not hidden. */
  lemma {:induction false} VisibleOfParts(a: seq<DirEntry>, b: seq<DirEntry>)
    ensures Visible(a + b) == Visible(a) + Visible(b)
    decreases |b|
  {
    if b == [] {
      assert a + b == a && Visible(a) + [] == Visible(a);
    } else {
      var last := b[|b| - 1];
      assert (a + b)[..|a + b| - 1] == a + b[..|b| - 1];
      VisibleOfParts(a, b[..|b| - 1]);
      assert (Visible(a) + Visible(b[..|b| - 1])) + [last.name] == Visible(a) + (Visible(b[..|b| - 1]) + [last.name]);
    }
  }

  lemma VisibleOfOne(e: DirEntry)
    ensures Visible([e]) == if e.name != "" && e.name[0] != '.' && e.isRegular then [e.name] else []
  {
    assert [e][..0] == [];
  }

  /** The names listed are exactly those of regular files that are not hidden. */
  lemma {:induction false} VisibleIff(entries: seq<DirEntry>, name: string)
    ensures name in Visible(entries) <==>
      name != "" && name[0] != '.' && exists i :: 0 <= i < |entries| && entries[i] == DirEntry(name, true)
  {
    if entries != [] {
      var n := |entries| - 1;
      var before, last := entries[..n], entries[n];
      VisibleIff(before, name);
      assert forall i :: 0 <= i < n ==> before[i] == entries[i];
      assert name in Visible(entries) <==> name in Visible(before) || (IsVisible(last) && last.name == name);
      assert last == DirEntry(name, true) <==> last.isRegular && last.name == name;
    }
  }

  /** File names that the text format can carry. */
  predicate Nameable(entries: seq<DirEntry>) {
    forall i :: 0 <= i < |entries| ==> '\n' !in entries[i].name && '\0' !in entries[i].name
  }

  lemma {:induction false} LinesPlain(names: seq<string>)
    requires AllListable(names)
    ensures '\0' !in Lines(names)
  {
    if names != [] {
      assert Listable(names[0]);
      assert forall i :: 0 <= i < |names| - 1 ==> names[1..][i] == names[i + 1];
      LinesPlain(names[1..]);
    }
  }

  /** A directory's reply read whole makes the manager understand exactly its regular files that
      are not hidden, in the order of the directory. */
  lemma {:induction false} DirectoryRoundTrip(entries: seq<DirEntry>)
    requires Nameable(entries)
    ensures ParseListing(CString(ListReply(Visible(entries)))) == Visible(entries)
  {
    var names := Visible(entries);
    forall k | 0 <= k < |names|
      ensures Listable(names[k])
    {
      assert names[k] in names;
      VisibleIff(entries, names[k]);
    }
    LinesPlain(names);
    var reply := ListReply(names);
    CStringOfText(reply);
    ListingReadIff(names, |reply|);
    assert reply[..|reply|] == reply;
  }

  predicate EndsWithMarker(reply: string) {
    |reply| >= 2 && reply[|reply| - 2..] == ".\n"
  }

  lemma {:induction false} LinesOfAppend(names: seq<string>, name: string)
    ensures Lines(names + [name]) == Lines(names) + (name + ['\n'])
  {
    if names == [] {
      assert [name][1..] == [];
    } else {
      assert (names + [name])[1..] == names[1..] + [name];
      LinesOfAppend(names[1..], name);
    }
  }

  /** `handle_list_command`; `directory` is absent when it cannot be opened. */
  method HandleList(directory: Option<seq<DirEntry>>) returns (sent: string)
    ensures directory.None? ==> sent == ""
    ensures directory.Some? ==> sent == ListReply(Visible(directory.value))
    ensures EndsWithMarker(sent) <==> directory.Some?
  {
    sent := "";
    if directory.None? {
      return;
    }
    var entries := directory.value;
    for i := 0 to |entries|
      invariant sent == Lines(Visible(entries[..i]))
    {
      assert entries[..i + 1][..i] == entries[..i];
      if entries[i].name != "" && entries[i].name[0] != '.' {
        if entries[i].isRegular {
          LinesOfAppend(Visible(entries[..i]), entries[i].name);
          sent := sent + (entries[i].name + "\n");
        }
      }
    }
    assert entries[..|entries|] == entries;
    sent := sent + ".\n";
  }

  // ---------------------------------------------------------------- commands to a client

  datatype Request = List(dir: string) | Pull(path: string) | Push(path: string, chunk: int) | BadPush | Unknown

  function SkipBlanks(s: string): string {
    if s != "" && s[0] == ' ' then SkipBlanks(s[1..]) else s
  }

  /** The buffer after its first newline has been overwritten. */
  function FirstLine(s: string): string {
    match StrChr(s, '\n')
    case None => s
    case Some(i) => s[..i]
  }

  /** `handle_client_connection` on what one `recv` delivered. */
  function ParseRequest(received: string): Request {
    ParseLine(FirstLine(CString(received)))
  }

  function ParseLine(line: string): Request {
    if "LIST" <= line then List(SkipBlanks(line[4..]))
    else if "PULL" <= line then Pull(SkipBlanks(line[4..]))
    else if "PUSH" <= line then ParsePush(line[4..])
    else Unknown
  }

  /** `sscanf(buffer, "PUSH %s %d", ...) >= 2`. */
  function ParsePush(arguments: string): Request {
    match ScanWord(arguments)
    case None => BadPush
    case Some(word) =>
      match ScanInt(word.1)
      case None => BadPush
      case Some(number) => Push(word.0, number.0)
  }

  function PullCommand(path: string): string { "PULL " + path + "\n" }

  function ListCommand(dir: string): string { "LIST " + dir + "\n" }

  /** `"PUSH %s %zu "` for a chunk, `"PUSH %s -1\n"` and `"PUSH %s 0\n"` for start and end. */
  function PushCommand(path: string, chunk: int): string {
    "PUSH" + PushArguments(path, chunk, if chunk > 0 then " " else "\n")
  }

  function PushArguments(path: string, chunk: int, end: string): string {
    [' '] + path + ([' '] + (DecimalInt(chunk) + end))
  }

  lemma {:induction false} CStringOfPrefix(a: string, b: string)
    requires '\0' !in a
    ensures CString(a + b) == a + CString(b)
  {
    if a == "" {
      assert a + b == b;
    } else {
      assert (a + b)[1..] == a[1..] + b;
      CStringOfPrefix(a[1..], b);
    }
  }

  lemma CStringOfText(a: string)
    requires '\0' !in a
    ensures CString(a) == a
  {
    CStringOfPrefix(a, "");
    assert a + "" == a;
  }

  predicate IsPathWord(path: string) { IsWord(path) && '\0' !in path }

  lemma FirstLineOfText(body: string, rest: string)
    requires '\n' !in body
    ensures FirstLine(body) == body && FirstLine(body + ['\n'] + rest) == body
  {
    StrChrOfSplit(body, '\n', rest);
    assert (body + ['\n'] + rest)[..|body|] == body;
  }

  lemma PushArgumentsPlain(path: string, chunk: int)
    requires IsPathWord(path)
    ensures '\n' !in PushArguments(path, chunk, "") && '\n' !in PushArguments(path, chunk, " ")
    ensures forall tail | tail == "" || tail == " " || tail == "\n" :: '\0' !in PushArguments(path, chunk, tail)
  {
    assert '\n' !in path && '\n' !in DecimalInt(chunk) && '\0' !in DecimalInt(chunk);
  }

  lemma PushCommandPlain(path: string, chunk: int)
    requires IsPathWord(path)
    ensures CString(PushCommand(path, chunk)) == PushCommand(path, chunk)
  {
    PushArgumentsPlain(path, chunk);
    CStringOfText(PushCommand(path, chunk));
  }

  lemma PushShape(path: string, chunk: int, tail: string)
    requires tail == if chunk > 0 then " " else ""
    ensures var body := "PUSH" + PushArguments(path, chunk, tail);
      PushCommand(path, chunk) == if chunk > 0 then body else body + ['\n'] + ""
  {
  }

  lemma FirstLineOfPush(path: string, chunk: int) returns (tail: string)
    requires IsPathWord(path)
    ensures tail == "" || tail == " "
    ensures FirstLine(CString(PushCommand(path, chunk))) == "PUSH" + PushArguments(path, chunk, tail)
  {
    PushCommandPlain(path, chunk);
    PushArgumentsPlain(path, chunk);
    tail := if chunk > 0 then " " else "";
    PushShape(path, chunk, tail);
    FirstLineOfText("PUSH" + PushArguments(path, chunk, tail), "");
  }

  lemma PushArgumentsScan(path: string, chunk: int, tail: string)
    requires IsWord(path) && (tail == "" || tail == " ")
    ensures var word := ScanWord(PushArguments(path, chunk, tail));
      word.Some? && word.value.0 == path && ScanInt(word.value.1) == Some((chunk, tail))
  {
    var rest := [' '] + (DecimalInt(chunk) + tail);
    ScanWordOfSplit([' '], path, rest);
    ScanIntSkipsSpace(DecimalInt(chunk) + tail);
    ScanIntOfDecimalInt(chunk, tail);
  }

  lemma DropBlank(s: string)
    ensures ([' '] + s)[Span([' '] + s, IsSpace)..] == s[Span(s, IsSpace)..]
  {
    assert ([' '] + s)[1..] == s;
    assert Span([' '] + s, IsSpace) == 1 + Span(s, IsSpace);
  }

  lemma ScanIntSkipsSpace(s: string)
    ensures ScanInt([' '] + s) == ScanInt(s)
  {
    DropBlank(s);
  }

  /** The PUSH command a worker sends is understood as sent, exactly for paths that are one
      word: non-empty and without white space. */
  lemma {:induction false} PushRoundTripIff(path: string, chunk: int)
    requires '\0' !in path
    ensures ParseRequest(PushCommand(path, chunk)) == Push(path, chunk) <==> IsWord(path)
  {
    if IsWord(path) {
      var tail := FirstLineOfPush(path, chunk);
      PushLine(PushArguments(path, chunk, tail));
      PushArgumentsScan(path, chunk, tail);
    }
  }

  /** The PULL command survives for every path without a newline that does not begin with a
      blank, and for no other. */
  lemma {:induction false} PullRoundTripIff(path: string)
    requires '\0' !in path
    ensures ParseRequest(PullCommand(path)) == Pull(path) <==>
      '\n' !in path && (path == "" || path[0] != ' ')
  {
    var body := "PULL " + path;
    CStringOfText(PullCommand(path));
    assert PullCommand(path) == body + ['\n'] + "";
    if '\n' in path {
      var end := StrChr(path, '\n').value;
      var head := "PULL " + path[..end];
      FirstLineOfText(head, path[end + 1..] + "\n");
      assert PullCommand(path) == head + ['\n'] + (path[end + 1..] + "\n");
      PullLine(path[..end]);
    } else {
      FirstLineOfText(body, "");
      PullLine(path);
    }
  }

  /** The same for the LIST command the manager sends. */
  lemma {:induction false} ListRoundTripIff(dir: string)
    requires '\0' !in dir
    ensures ParseRequest(ListCommand(dir)) == List(dir) <==>
      '\n' !in dir && (dir == "" || dir[0] != ' ')
  {
    var body := "LIST " + dir;
    CStringOfText(ListCommand(dir));
    assert ListCommand(dir) == body + ['\n'] + "";
    if '\n' in dir {
      var end := StrChr(dir, '\n').value;
      var head := "LIST " + dir[..end];
      FirstLineOfText(head, dir[end + 1..] + "\n");
      assert ListCommand(dir) == head + ['\n'] + (dir[end + 1..] + "\n");
      ListLine(dir[..end]);
    } else {
      FirstLineOfText(body, "");
      ListLine(dir);
    }
  }

  lemma ListLine(dir: string)
    ensures ParseLine("LIST " + dir) == List(SkipBlanks(dir))
    ensures |SkipBlanks(dir)| <= |dir|
    ensures SkipBlanks(dir) == dir <==> dir == "" || dir[0] != ' '
  {
    var line := "LIST " + dir;
    assert "LIST" <= line;
    assert line[4..] == [' '] + dir;
    assert ([' '] + dir)[1..] == dir;
    SkipBlanksShortens(dir);
  }

  lemma PushLine(arguments: string)
    ensures ParseLine("PUSH" + arguments) == ParsePush(arguments)
  {
    var line := "PUSH" + arguments;
    assert !("LIST" <= line) by { assert line[0] == 'P' && "LIST"[0] == 'L'; }
    assert !("PULL" <= line) by { assert line[2] == 'S' && "PULL"[2] == 'L'; }
    assert line[4..] == arguments;
  }

  lemma PullLine(path: string)
    ensures ParseLine("PULL " + path) == Pull(SkipBlanks(path))
    ensures |SkipBlanks(path)| <= |path|
    ensures SkipBlanks(path) == path <==> path == "" || path[0] != ' '
  {
    var line := "PULL " + path;
    assert !("LIST" <= line) by { assert line[0] == 'P' && "LIST"[0] == 'L'; }
    assert line[4..] == [' '] + path;
    assert ([' '] + path)[1..] == path;
    SkipBlanksShortens(path);
  }

  lemma {:induction false} SkipBlanksShortens(s: string)
    ensures |SkipBlanks(s)| <= |s|
    ensures SkipBlanks(s) == s <==> s == "" || s[0] != ' '
  {
    if s != "" && s[0] == ' ' {
      SkipBlanksShortens(s[1..]);
    }
  }

  lemma LineOfName(name: string, line: string)
    requires name <= line && (name == "PULL" || name == "LIST")
    ensures name == "PULL" ==> ParseLine(line).Pull?
    ensures name == "LIST" ==> ParseLine(line).List?
  {
    assert line[0] == name[0];
  }

  /** The first line of a command keeps its name. */
  lemma FirstLineKeepsName(name: string, rest: string)
    requires |name| == 4 && '\n' !in name && '\0' !in name && '\0' !in rest
    ensures name <= FirstLine(CString(name + rest))
  {
    var text := name + rest;
    CStringOfText(text);
    if '\n' in text {
      var end := StrChr(text, '\n').value;
      assert forall i :: 0 <= i < 4 ==> text[i] == name[i];
      assert text[..end][..4] == name;
    }
  }

  /** Whatever the path, a PULL command is read as one. */
  lemma PullIsRead(path: string)
    requires '\0' !in path
    ensures ParseRequest(PullCommand(path)).Pull?
  {
    assert PullCommand(path) == "PULL" + (" " + path + "\n");
    FirstLineKeepsName("PULL", " " + path + "\n");
    LineOfName("PULL", FirstLine(CString(PullCommand(path))));
  }

  lemma ListIsRead(dir: string)
    requires '\0' !in dir
    ensures ParseRequest(ListCommand(dir)).List?
  {
    assert ListCommand(dir) == "LIST" + (" " + dir + "\n");
    FirstLineKeepsName("LIST", " " + dir + "\n");
    LineOfName("LIST", FirstLine(CString(ListCommand(dir))));
  }

  /** A command is unknown exactly if it begins with none of the three names. */
  lemma UnknownIff(received: string)
    ensures ParseRequest(received) == Unknown <==>
      var line := FirstLine(CString(received)); !("LIST" <= line) && !("PULL" <= line) && !("PUSH" <= line)
  {
  }

  /** The texts as they appear on the wire, for a small file. */
  lemma WireTexts()
    ensures ListCommand("/s") == "LIST /s\n" && PullCommand("/s/a") == "PULL /s/a\n"
    ensures PushCommand("/t/a", -1) == "PUSH /t/a -1\n" && PushCommand("/t/a", 0) == "PUSH /t/a 0\n"
    ensures PushCommand("/t/a", 3) == "PUSH /t/a 3 " && PullReply("xyz") == "3 xyz"
    ensures ListReply(["a", "b"]) == "a\nb\n.\n"
  {
    assert DecimalInt(-1) == "-1" && DecimalInt(0) == "0" && DecimalInt(3) == "3";
    assert ["a", "b"][1..] == ["b"] && ["b"][1..] == [];
  }

  // ---------------------------------------------------------------- PULL reply

  function Header(size: nat): string { DecimalInt(size) + [' '] }

  /** How long a printed number is. */
  lemma {:induction false} DecimalLength(n: nat, digits: nat)
    requires digits >= 1 && n < PowerOfTen(digits)
    ensures |Decimal(n)| <= digits
    decreases digits
  {
    if n >= 10 {
      DecimalLength(n / 10, digits - 1);
    }
  }

  function PowerOfTen(k: nat): nat { if k == 0 then 1 else 10 * PowerOfTen(k - 1) }

  /** The header of any file whose size a `long` can hold fits the relay's first read. */
  lemma HeaderFits(size: nat)
    requires size < 0x8000_0000_0000_0000
    ensures |Header(size)| <= 20
  {
    assert PowerOfTen(19) >= 0x8000_0000_0000_0000 by { PowerOfTenIs(); }
    DecimalLength(size, 19);
  }

  lemma PowerOfTenIs()
    ensures PowerOfTen(19) == 10_000_000_000_000_000_000
  {
    assert PowerOfTen(5) == 100_000;
    assert PowerOfTen(10) == 10_000_000_000;
    assert PowerOfTen(15) == 1_000_000_000_000_000;
  }

  /** What `handle_pull_command` sends for a file it can open. */
  function PullReply(content: string): string { Header(|content|) + content }

  /** What it sends for one it cannot: `snprintf` into 64 bytes. */
  function PullError(message: string): string { Field("-1 " + message, 64) }

  datatype FirstRead = NoHeader | Announced(size: int, headerLength: nat)

  /** `sync_single_file` on what its first `recv` delivered. */
  function ParseHeader(received: string): FirstRead {
    var text := CString(received);
    match StrChr(text, ' ')
    case None => NoHeader
    case Some(space) => Announced(Atoi(text), space + 1)
  }

  /** What a text with a number in front of its first blank parses to. */
  lemma ParseHeaderOfSplit(n: int, rest: string)
    requires ' ' !in DecimalInt(n)
    ensures ParseHeader(DecimalInt(n) + [' '] + rest) == Announced(n, |DecimalInt(n)| + 1)
  {
    var digits := DecimalInt(n);
    CStringOfPrefix(digits + [' '], rest);
    StrChrOfSplit(digits, ' ', CString(rest));
    NumberBeforeBlank(n, CString(rest));
  }

  lemma NumberBeforeBlank(n: int, rest: string)
    ensures Atoi(DecimalInt(n) + [' '] + rest) == n
  {
    ScanIntOfDecimalInt(n, [' '] + rest);
    assert DecimalInt(n) + [' '] + rest == DecimalInt(n) + ([' '] + rest);
  }

  /** The relay finds size and start of the payload, whatever bytes follow, if and only if its
      first read holds the whole header. */
  lemma {:induction false} HeaderReadIff(content: string, n: nat)
    requires n <= |PullReply(content)|
    ensures ParseHeader(PullReply(content)[..n]) ==
      if n < |Header(|content|)| then NoHeader else Announced(|content|, |Header(|content|)|)
  {
    var digits := DecimalInt(|content|);
    var reply := PullReply(content);
    if n < |Header(|content|)| {
      assert reply[..n] == digits[..n];
      CStringOfText(digits[..n]);
    } else {
      assert reply[..n] == digits + [' '] + content[..n - |digits| - 1];
      ParseHeaderOfSplit(|content|, content[..n - |digits| - 1]);
    }
  }

  /** An error reply is "-1 " and the message, as far as 63 characters go. */
  lemma ErrorReplyCarriesMessage(message: string)
    ensures "-1 " <= PullError(message) && PullError(message)[3..] <= message && |PullError(message)| <= 63
    ensures |message| <= 60 ==> PullError(message)[3..] == message
  {
    assert ("-1 " + message)[3..] == message;
  }

  /** However little of an error reply is read, it is refused. */
  lemma ErrorReplyIsRefused(message: string, n: nat)
    requires n <= |PullError(message)|
    ensures var header := ParseHeader(PullError(message)[..n]); header.NoHeader? || header.size < 0
  {
    if n >= 3 {
      ErrorReplyIsNegative(message, n);
    } else {
      var text := PullError(message)[..n];
      assert text == "-1"[..n];
      CStringOfText(text);
    }
  }

  /** An error reply never looks like a size. */
  lemma {:induction false} ErrorReplyIsNegative(message: string, n: nat)
    requires 3 <= n <= |PullError(message)|
    ensures ParseHeader(PullError(message)[..n]) == Announced(-1, 3)
  {
    var text := PullError(message)[..n];
    assert Decimal(1) == "1" && DecimalInt(-1) == "-1";
    assert text == "-1" + [' '] + text[3..];
    ParseHeaderOfSplit(-1, text[3..]);
  }
}
