/** The directory specification `dir@host:port` and the two-specification configuration line
    (`src/utils.c`). */
module DirectorySpec {
  import opened Options
  import opened CText

  const MAX_PATH: nat := 1024
  const MAX_HOST: nat := 256

  datatype Endpoint = Endpoint(host: string, port: int, dir: string)

  /** The only way the text can be cut: at the first `@`, then at the first `:` behind it. */
  ghost predicate Splits(spec: string, dir: string, host: string, rest: string) {
    && spec == dir + ['@'] + (host + [':'] + rest)
    && '@' !in dir && ':' !in host
  }

  function Parse(spec: string): Option<Endpoint> {
    match StrChr(spec, '@')
    case None => None
    case Some(at) => if at >= MAX_PATH then None else ParseHostPort(spec[..at], spec[at + 1..])
  }

  function ParseHostPort(dir: string, tail: string): Option<Endpoint> {
    match StrChr(tail, ':')
    case None => None
    case Some(colon) =>
      var port := Atoi(tail[colon + 1..]);
      if colon >= MAX_HOST || port <= 0 then None else Some(Endpoint(tail[..colon], port, dir))
  }

  lemma SplitAt(before: string, c: char, after: string)
    requires c !in before
    ensures var s := before + [c] + after;
      StrChr(s, c) == Some(|before|) && s[..|before|] == before && s[|before| + 1..] == after
  {
    StrChrOfSplit(before, c, after);
  }

  lemma CutAt(s: string, c: char, i: nat)
    requires StrChr(s, c) == Some(i)
    ensures s == s[..i] + [c] + s[i + 1..] && c !in s[..i]
  {
  }

  lemma SeparatorsGiveSplit(spec: string, at: nat, colon: nat)
    requires StrChr(spec, '@') == Some(at)
    requires StrChr(spec[at + 1..], ':') == Some(colon)
    ensures Splits(spec, spec[..at], spec[at + 1..][..colon], spec[at + 1..][colon + 1..])
  {
    CutAt(spec, '@', at);
    CutAt(spec[at + 1..], ':', colon);
  }

  /** The text describes the endpoint: it splits into the endpoint's parts, which fit the
      caller's buffers, and the port text converts to a positive number. */
  ghost predicate Describes(spec: string, e: Endpoint, rest: string) {
    && Splits(spec, e.dir, e.host, rest)
    && |e.dir| < MAX_PATH && |e.host| < MAX_HOST && Atoi(rest) == e.port && e.port > 0
  }

  lemma ParseSound(spec: string, e: Endpoint) returns (rest: string)
    requires Parse(spec) == Some(e)
    ensures Describes(spec, e, rest)
  {
    var at := StrChr(spec, '@').value;
    var colon := StrChr(spec[at + 1..], ':').value;
    SeparatorsGiveSplit(spec, at, colon);
    rest := spec[at + 1..][colon + 1..];
  }

  lemma ParseComplete(spec: string, e: Endpoint, rest: string)
    requires Describes(spec, e, rest)
    ensures Parse(spec) == Some(e)
  {
    var tail := e.host + [':'] + rest;
    SplitAt(e.host, ':', rest);
    assert ParseHostPort(e.dir, tail) == Some(e);
    SplitAt(e.dir, '@', tail);
  }

  /** What the parser accepts, stated without it. */
  lemma {:induction false} ParseIff(spec: string, e: Endpoint)
    ensures Parse(spec) == Some(e) <==> exists rest :: Describes(spec, e, rest)
  {
    if Parse(spec) == Some(e) {
      var rest := ParseSound(spec, e);
    }
    if exists rest :: Describes(spec, e, rest) {
      var rest :| Describes(spec, e, rest);
      ParseComplete(spec, e, rest);
    }
  }

  function Print(e: Endpoint): string {
    e.dir + ['@'] + (e.host + [':'] + DecimalInt(e.port))
  }

  /** The endpoints the text format can carry. */
  predicate Printable(e: Endpoint) {
    '@' !in e.dir && ':' !in e.host && |e.dir| < MAX_PATH && |e.host| < MAX_HOST && e.port > 0
  }

  /** Printing and parsing again is the identity on printable endpoints and on no others. */
  lemma {:induction false} RoundTripIff(e: Endpoint)
    ensures Parse(Print(e)) == Some(e) <==> Printable(e)
  {
    var port := DecimalInt(e.port);
    assert port + "" == port;
    ScanIntOfDecimalInt(e.port, "");
    if Parse(Print(e)) == Some(e) {
      var rest := ParseSound(Print(e), e);
    }
    if Printable(e) {
      ParseComplete(Print(e), e, port);
    }
  }

  /** The two words `sscanf(line, "%s %s")` delivers, when it delivers both. */
  function ScanTwo(line: string): Option<(string, string)> {
    match ScanWord(line)
    case None => None
    case Some(first) =>
      match ScanWord(first.1)
      case None => None
      case Some(second) => Some((first.0, second.0))
  }

  lemma ScanTwoOfSplit(lead: string, w1: string, gap: string, w2: string, tail: string)
    requires IsBlank(lead) && IsWord(w1) && IsBlank(gap) && gap != "" && IsWord(w2)
    requires tail == "" || IsSpace(tail[0])
    ensures ScanTwo(lead + w1 + gap + w2 + tail) == Some((w1, w2))
  {
    ScanWordOfSplit(lead, w1, gap + w2 + tail);
    assert lead + w1 + gap + w2 + tail == lead + w1 + (gap + w2 + tail);
    ScanWordOfSplit(gap, w2, tail);
  }

  function ParseConfigLine(line: string): Option<(Endpoint, Endpoint)> {
    match ScanTwo(line)
    case None => None
    case Some(words) =>
      match (Parse(words.0), Parse(words.1))
      case (Some(source), Some(target)) => Some((source, target))
      case _ => None
  }

  predicate Unspaced(e: Endpoint) {
    (forall i :: 0 <= i < |e.dir| ==> NotSpace(e.dir[i]))
    && forall i :: 0 <= i < |e.host| ==> NotSpace(e.host[i])
  }

  lemma UnspacedPrintsWord(e: Endpoint)
    requires Unspaced(e)
    ensures IsWord(Print(e))
  {
  }

  lemma WordParsesUnspaced(w: string, e: Endpoint)
    requires IsWord(w) && Parse(w) == Some(e)
    ensures Unspaced(e)
  {
    var rest := ParseSound(w, e);
    var tail := e.host + [':'] + rest;
    PartsOfWord(w, e.dir, '@', tail);
    PartsOfWord(tail, e.host, ':', rest);
  }

  lemma PartsOfWord(w: string, before: string, c: char, after: string)
    requires forall i :: 0 <= i < |w| ==> NotSpace(w[i])
    requires w == before + [c] + after
    ensures forall i :: 0 <= i < |before| ==> NotSpace(before[i])
    ensures forall i :: 0 <= i < |after| ==> NotSpace(after[i])
  {
    assert forall i :: 0 <= i < |before| ==> before[i] == w[i];
    assert forall i :: 0 <= i < |after| ==> after[i] == w[|before| + 1 + i];
  }

  lemma ScanTwoGivesWords(line: string)
    ensures ScanTwo(line).Some? ==> IsWord(ScanTwo(line).value.0) && IsWord(ScanTwo(line).value.1)
  {
  }

  /** A printed configuration line reads back as its two endpoints exactly when both are
      printable and neither contains white space. */
  lemma {:induction false} ConfigLineRoundTripIff(source: Endpoint, target: Endpoint)
    ensures ParseConfigLine(Print(source) + " " + Print(target) + "\n") == Some((source, target))
      <==> Printable(source) && Unspaced(source) && Printable(target) && Unspaced(target)
  {
    var line := Print(source) + " " + Print(target) + "\n";
    if ParseConfigLine(line) == Some((source, target)) {
      var words := ScanTwo(line).value;
      ScanTwoGivesWords(line);
      WordParsesUnspaced(words.0, source);
      WordParsesUnspaced(words.1, target);
    }
    if Unspaced(source) && Unspaced(target) {
      ScanTwoOfPrinted(source, target);
      RoundTripIff(source);
      RoundTripIff(target);
    }
  }

  lemma ScanTwoOfPrinted(source: Endpoint, target: Endpoint)
    requires Unspaced(source) && Unspaced(target)
    ensures ScanTwo(Print(source) + " " + Print(target) + "\n") == Some((Print(source), Print(target)))
  {
    UnspacedPrintsWord(source);
    UnspacedPrintsWord(target);
    ScanTwoOfSplit("", Print(source), " ", Print(target), "\n");
    assert "" + Print(source) == Print(source);
  }

  /** `strncpy` into a caller's buffer followed by the terminating NUL. */
  method CopyInto(buffer: array<char>, s: string)
    requires |s| < buffer.Length && '\0' !in s
    modifies buffer
    ensures CString(buffer[..]) == s
  {
    for i := 0 to |s|
      invariant buffer[..i] == s[..i]
    {
      buffer[i] := s[i];
    }
    buffer[|s|] := '\0';
    assert s == s[..|s|] == buffer[..|s|];
    CStringOfBuffer(buffer[..], |s|);
  }

  lemma {:induction false} CStringOfBuffer(buffer: string, n: nat)
    requires n < |buffer| && buffer[n] == '\0' && '\0' !in buffer[..n]
    ensures CString(buffer) == buffer[..n]
  {
    var s := CString(buffer);
    assert forall i :: 0 <= i < n ==> buffer[i] in buffer[..n];
    assert s == buffer[..|s|];
  }

  /** `parse_directory_spec` on the caller's buffers: no write leaves them, whatever the text. */
  method ParseDirectorySpec(spec: string, host: array<char>, dir: array<char>)
    returns (rc: int, port: int)
    requires '\0' !in spec
    requires host.Length == MAX_HOST && dir.Length == MAX_PATH && host != dir
    modifies host, dir
    ensures rc == 0 || rc == -1
    ensures rc == 0 <==> Parse(spec).Some?
    ensures rc == 0 ==> Parse(spec) == Some(Endpoint(CString(host[..]), port, CString(dir[..])))
  {
    port := 0;
    var at := StrChr(spec, '@');
    if at.None? {
      return -1, port;
    }
    if at.value >= MAX_PATH {
      return -1, port;
    }
    CopyInto(dir, spec[..at.value]);
    var tail := spec[at.value + 1..];
    var colon := StrChr(tail, ':');
    if colon.None? {
      return -1, port;
    }
    if colon.value >= MAX_HOST {
      return -1, port;
    }
    CopyInto(host, tail[..colon.value]);
    port := Atoi(tail[colon.value + 1..]);
    if port <= 0 {
      return -1, port;
    }
    rc := 0;
  }
}
