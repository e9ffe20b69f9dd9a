/** The ISO C99 text functions the programs rely on, as functions on character sequences.
    A byte of the wire or of a file is a `char`; a C string is a sequence without `'\0'`. */
module CText {
  import opened Options

  predicate IsSpace(c: char) {
    c == ' ' || c == '\t' || c == '\n' || c == 11 as char || c == 12 as char || c == '\r'
  }

  predicate IsDigit(c: char) { '0' <= c <= '9' }

  predicate NotSpace(c: char) { !IsSpace(c) }

  /** The text a C function sees in a buffer: everything before the first NUL. */
  function CString(buffer: string): (s: string)
    ensures s <= buffer && '\0' !in s
    ensures |s| < |buffer| ==> buffer[|s|] == '\0'
  {
    if buffer == "" || buffer[0] == '\0' then "" else [buffer[0]] + CString(buffer[1..])
  }

  /** `strchr` (section 7.21.5.2) as an offset. */
  function StrChr(s: string, c: char): (r: Option<nat>)
    ensures r.None? <==> c !in s
    ensures r.Some? ==> r.value < |s| && s[r.value] == c && c !in s[..r.value]
  {
    if s == "" then None
    else if s[0] == c then Some(0)
    else
      match StrChr(s[1..], c)
      case None => None
      case Some(i) =>
        assert s[..i + 1] == [s[0]] + s[1..][..i];
        Some(i + 1)
  }

  /** Where the first `c` lies is forced by any split around a `c` that has none before it. */
  lemma StrChrOfSplit(before: string, c: char, after: string)
    requires c !in before
    ensures StrChr(before + [c] + after, c) == Some(|before|)
  {
    var s := before + [c] + after;
    assert s[|before|] == c;
    assert forall i :: 0 <= i < |before| ==> s[i] == before[i];
  }

  /** The number of leading characters that satisfy `p`: the scan loop of every conversion. */
  function Span(s: string, p: char -> bool): (n: nat)
    ensures n <= |s|
    ensures forall i :: 0 <= i < n ==> p(s[i])
    ensures n < |s| ==> !p(s[n])
  {
    if s == "" || !p(s[0]) then 0 else 1 + Span(s[1..], p)
  }

  lemma SpanOfSplit(a: string, b: string, p: char -> bool)
    requires forall i :: 0 <= i < |a| ==> p(a[i])
    requires b == "" || !p(b[0])
    ensures Span(a + b, p) == |a|
  {
    assert forall i :: 0 <= i < |a| ==> (a + b)[i] == a[i];
    assert b != "" ==> (a + b)[|a|] == b[0];
  }

  function DigitValue(c: char): nat
    requires IsDigit(c)
  {
    c as nat - '0' as nat
  }

  function DecimalValue(digits: string): nat
    requires forall i :: 0 <= i < |digits| ==> IsDigit(digits[i])
  {
    if digits == "" then 0
    else DecimalValue(digits[..|digits| - 1]) * 10 + DigitValue(digits[|digits| - 1])
  }

  /** `%ld` and `%zu` of a non-negative number. */
  function Decimal(n: nat): (s: string)
    ensures s != "" && forall i :: 0 <= i < |s| ==> IsDigit(s[i])
  {
    if n < 10 then [('0' as nat + n) as char]
    else Decimal(n / 10) + [('0' as nat + n % 10) as char]
  }

  /** `%d`. */
  function DecimalInt(n: int): (s: string)
    ensures s != "" && forall i :: 0 <= i < |s| ==> NotSpace(s[i]) && s[i] != '\0'
  {
    if n < 0 then "-" + Decimal(-n) else Decimal(n)
  }

  lemma {:induction false} DecimalValueOfDecimal(n: nat)
    ensures DecimalValue(Decimal(n)) == n
  {
    var s := Decimal(n);
    if n < 10 {
      assert s[..|s| - 1] == "";
    } else {
      DecimalValueOfDecimal(n / 10);
      assert s[..|s| - 1] == Decimal(n / 10);
    }
  }

  /** A scanned integer and the text behind it; `None` when no digit can be converted. */
  function ScanInt(s: string): Option<(int, string)> {
    ScanNumber(s[Span(s, IsSpace)..])
  }

  function ScanNumber(t: string): Option<(int, string)> {
    if t != "" && (t[0] == '-' || t[0] == '+') then ScanDigits(t[1..], t[0] == '-') else ScanDigits(t, false)
  }

  function ScanDigits(u: string, negative: bool): Option<(int, string)> {
    var n := Span(u, IsDigit);
    if n == 0 then None
    else
      var magnitude: int := DecimalValue(u[..n]);
      Some((if negative then -magnitude else magnitude, u[n..]))
  }

  /** `atoi` and `atol` (section 7.20.1.2): what cannot be converted is 0. */
  function Atoi(s: string): int {
    match ScanInt(s)
    case None => 0
    case Some(r) => r.0
  }

  lemma DigitsOfSplit(d: string, rest: string)
    requires forall i :: 0 <= i < |d| ==> IsDigit(d[i])
    requires rest == "" || !IsDigit(rest[0])
    ensures Span(d + rest, IsDigit) == |d|
    ensures (d + rest)[..|d|] == d && (d + rest)[|d|..] == rest
  {
    SpanOfSplit(d, rest, IsDigit);
  }

  predicate IsNumeral(digits: string) { digits != "" && forall i :: 0 <= i < |digits| ==> IsDigit(digits[i]) }

  lemma ScanDigitsOfSplit(digits: string, rest: string, negative: bool)
    requires IsNumeral(digits) && (rest == "" || !IsDigit(rest[0]))
    ensures ScanDigits(digits + rest, negative)
      == Some((if negative then -(DecimalValue(digits) as int) else DecimalValue(digits), rest))
  {
    DigitsOfSplit(digits, rest);
  }

  lemma ScanSigned(c: char, u: string)
    requires c == '+' || c == '-'
    ensures ScanNumber([c] + u) == ScanDigits(u, c == '-')
  {
    assert ([c] + u)[1..] == u;
  }

  lemma ScanIntBehindBlanks(blank: string, t: string)
    requires IsBlank(blank) && (t == "" || !IsSpace(t[0]))
    ensures ScanInt(blank + t) == ScanNumber(t)
  {
    SpanOfSplit(blank, t, IsSpace);
    assert (blank + t)[|blank|..] == t;
  }

  /** `atoi` of blanks, digits, and whatever follows them. */
  lemma AtoiOfNumeral(blank: string, digits: string, rest: string)
    requires IsBlank(blank) && IsNumeral(digits) && (rest == "" || !IsDigit(rest[0]))
    ensures Atoi(blank + (digits + rest)) == DecimalValue(digits)
  {
    assert (digits + rest)[0] == digits[0];
    ScanIntBehindBlanks(blank, digits + rest);
    ScanDigitsOfSplit(digits, rest, false);
  }

  /** `atoi` of blanks, a sign, digits, and whatever follows them. */
  lemma AtoiOfSigned(blank: string, c: char, digits: string, rest: string)
    requires IsBlank(blank) && (c == '+' || c == '-')
    requires IsNumeral(digits) && (rest == "" || !IsDigit(rest[0]))
    ensures Atoi(blank + ([c] + (digits + rest)))
      == if c == '-' then -(DecimalValue(digits) as int) else DecimalValue(digits)
  {
    ScanIntBehindBlanks(blank, [c] + (digits + rest));
    ScanSigned(c, digits + rest);
    ScanDigitsOfSplit(digits, rest, c == '-');
  }

  /** `atoi` of a text that goes on with neither sign nor digit behind its blanks. */
  lemma AtoiOfNoNumeral(blank: string, rest: string)
    requires IsBlank(blank)
    requires rest == "" || !(IsDigit(rest[0]) || IsSpace(rest[0]) || rest[0] == '+' || rest[0] == '-')
    ensures Atoi(blank + rest) == 0
  {
    ScanIntBehindBlanks(blank, rest);
  }

  lemma DecimalIsNumeral(n: nat)
    ensures IsNumeral(Decimal(n)) && DecimalValue(Decimal(n)) == n
  {
    DecimalValueOfDecimal(n);
  }

  lemma ScanIntAtOnce(t: string)
    requires t == "" || !IsSpace(t[0])
    ensures ScanInt(t) == ScanNumber(t)
  {
    assert t[0..] == t;
  }

  lemma ScanIntOfDecimal(n: nat, rest: string)
    requires rest == "" || !IsDigit(rest[0])
    ensures ScanInt(Decimal(n) + rest) == Some((n, rest))
  {
    assert (Decimal(n) + rest)[0] == Decimal(n)[0];
    ScanIntAtOnce(Decimal(n) + rest);
    DecimalIsNumeral(n);
    ScanDigitsOfSplit(Decimal(n), rest, false);
  }

  lemma ScanIntOfNegative(n: nat, rest: string)
    requires rest == "" || !IsDigit(rest[0])
    ensures ScanInt(['-'] + (Decimal(n) + rest)) == Some((-(n as int), rest))
  {
    ScanIntAtOnce(['-'] + (Decimal(n) + rest));
    ScanSigned('-', Decimal(n) + rest);
    DecimalIsNumeral(n);
    ScanDigitsOfSplit(Decimal(n), rest, true);
  }

  lemma NegativeText(n: nat, rest: string)
    requires n > 0
    ensures DecimalInt(-(n as int)) + rest == ['-'] + (Decimal(n) + rest)
  {
  }

  /** Reading back a printed integer stops exactly where the digits end. */
  lemma ScanIntOfDecimalInt(n: int, rest: string)
    requires rest == "" || !IsDigit(rest[0])
    ensures ScanInt(DecimalInt(n) + rest) == Some((n, rest))
    ensures Atoi(DecimalInt(n) + rest) == n
  {
    if n < 0 {
      NegativeText(-n, rest);
      ScanIntOfNegative(-n, rest);
    } else {
      ScanIntOfDecimal(n, rest);
    }
  }

  /** One `%s` conversion of `sscanf` (section 7.19.6.7): the word and the text behind it. */
  function ScanWord(s: string): (r: Option<(string, string)>)
    ensures r.Some? ==> r.value.0 != "" && forall i :: 0 <= i < |r.value.0| ==> NotSpace(r.value.0[i])
  {
    var t := s[Span(s, IsSpace)..];
    var n := Span(t, NotSpace);
    if n == 0 then None else Some((t[..n], t[n..]))
  }

  /** The text begins with blanks and the word, and does not go on with the word behind it. */
  ghost predicate Then(s: string, w: string, rest: string) {
    exists blank :: WordBehind(s, blank, w, rest)
  }

  predicate WordBehind(s: string, blank: string, w: string, rest: string) {
    s == blank + w + rest && IsBlank(blank) && IsWord(w) && EndsWord(rest)
  }

  lemma ScanWordSound(s: string, w: string, rest: string)
    requires ScanWord(s) == Some((w, rest))
    ensures Then(s, w, rest)
  {
    var n := Span(s, IsSpace);
    var t := s[n..];
    var m := Span(t, NotSpace);
    assert t == w + rest && w == t[..m] && rest == t[m..];
    CutJoined(s, n, w, rest);
    assert WordBehind(s, s[..n], w, rest);
  }

  lemma CutJoined(s: string, n: nat, w: string, rest: string)
    requires n <= |s| && s[n..] == w + rest
    ensures s == s[..n] + w + rest
  {
    assert s == s[..n] + (w + rest);
  }

  /** What the conversion delivers. */
  lemma ScanWordIff(s: string, w: string, rest: string)
    ensures ScanWord(s) == Some((w, rest)) <==> Then(s, w, rest)
  {
    if ScanWord(s) == Some((w, rest)) {
      ScanWordSound(s, w, rest);
    }
    if Then(s, w, rest) {
      var blank :| WordBehind(s, blank, w, rest);
      ScanWordOfSplit(blank, w, rest);
    }
  }

  /** When it delivers nothing. */
  lemma BlankIff(s: string)
    ensures ScanWord(s) == None <==> IsBlank(s)
  {
    var n := Span(s, IsSpace);
    if IsBlank(s) {
      assert n == |s|;
    } else {
      assert n < |s| && s[n..][0] == s[n];
    }
  }

  predicate EndsWord(rest: string) { rest == "" || IsSpace(rest[0]) }

  predicate IsWord(w: string) { w != "" && forall i :: 0 <= i < |w| ==> NotSpace(w[i]) }

  predicate IsBlank(b: string) { forall i :: 0 <= i < |b| ==> IsSpace(b[i]) }

  lemma ScanWordOfSplit(blank: string, w: string, rest: string)
    requires IsBlank(blank) && IsWord(w)
    requires rest == "" || IsSpace(rest[0])
    ensures ScanWord(blank + w + rest) == Some((w, rest))
  {
    var s := blank + w + rest;
    assert s == blank + (w + rest);
    SpanOfSplit(blank, w + rest, IsSpace) by { assert (w + rest)[0] == w[0]; }
    assert s[|blank|..] == w + rest;
    SpanOfSplit(w, rest, NotSpace);
    assert (w + rest)[..|w|] == w;
    assert (w + rest)[|w|..] == rest;
  }

  /** What a `char[size]` field holds after `strncpy(field, s, size - 1)` and the final NUL. */
  function Field(s: string, size: nat): (f: string)
    requires size > 0
    ensures f <= s && |f| < size
    ensures |s| < size ==> f == s
    ensures |s| >= size ==> |f| == size - 1
  {
    if |s| < size then s else s[..size - 1]
  }
}
