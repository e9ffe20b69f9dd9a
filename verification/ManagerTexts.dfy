/** What the texts given to the manager mean: console messages and configuration lines. */
module ManagerTexts {
  import opened CText
  import opened DirectorySpec
  import opened Manager
  import opened ManagerRuns
  import opened Options
  import opened SyncEntries
  import Wire

  // ---------------------------------------------------------------- the forms of a message

  /** The word "add" and at least two more. */
  ghost predicate AddForm(text: string, w1: string, w2: string) {
    exists r1, r2, r3 :: AddParts(text, r1, w1, r2, w2, r3)
  }

  ghost predicate AddParts(text: string, r1: string, w1: string, r2: string, w2: string, r3: string) {
    Then(text, "add", r1) && Then(r1, w1, r2) && Then(r2, w2, r3)
  }

  /** The word "cancel" and exactly one more. */
  ghost predicate CancelForm(text: string, w: string) {
    exists r1, r2 :: CancelParts(text, r1, w, r2)
  }

  ghost predicate CancelParts(text: string, r1: string, w: string, r2: string) {
    Then(text, "cancel", r1) && Then(r1, w, r2) && IsBlank(r2)
  }

  /** The word "shutdown", whatever follows it. */
  ghost predicate ShutdownForm(text: string) { exists r1 :: Then(text, "shutdown", r1) }

  lemma AddSound(received: string, w1: string, w2: string)
    requires ParseMessage(received) == AddMessage(w1, w2)
    ensures AddForm(CString(received), w1, w2)
  {
    var text := CString(received);
    var command := ScanWord(text).value;
    var arg1 := ScanWord(command.1).value;
    var arg2 := ScanWord(arg1.1).value;
    ScanWordIff(text, "add", command.1);
    ScanWordIff(command.1, w1, arg1.1);
    ScanWordIff(arg1.1, w2, arg2.1);
    assert AddParts(text, command.1, w1, arg1.1, w2, arg2.1);
  }

  lemma AddComplete(received: string, r1: string, w1: string, r2: string, w2: string, r3: string)
    requires AddParts(CString(received), r1, w1, r2, w2, r3)
    ensures ParseMessage(received) == AddMessage(w1, w2)
  {
    ScanWordIff(CString(received), "add", r1);
    ScanWordIff(r1, w1, r2);
    ScanWordIff(r2, w2, r3);
  }

  lemma AddIff(received: string, w1: string, w2: string)
    ensures ParseMessage(received) == AddMessage(w1, w2) <==> AddForm(CString(received), w1, w2)
  {
    if ParseMessage(received) == AddMessage(w1, w2) {
      AddSound(received, w1, w2);
    }
    if AddForm(CString(received), w1, w2) {
      var r1, r2, r3 :| AddParts(CString(received), r1, w1, r2, w2, r3);
      AddComplete(received, r1, w1, r2, w2, r3);
    }
  }

  lemma CancelSound(received: string, w: string)
    requires ParseMessage(received) == CancelMessage(w)
    ensures CancelForm(CString(received), w)
  {
    var text := CString(received);
    var command := ScanWord(text).value;
    var arg1 := ScanWord(command.1).value;
    ScanWordIff(text, "cancel", command.1);
    ScanWordIff(command.1, w, arg1.1);
    BlankIff(arg1.1);
    assert CancelParts(text, command.1, w, arg1.1);
  }

  lemma CancelComplete(received: string, r1: string, w: string, r2: string)
    requires CancelParts(CString(received), r1, w, r2)
    ensures ParseMessage(received) == CancelMessage(w)
  {
    ScanWordIff(CString(received), "cancel", r1);
    ScanWordIff(r1, w, r2);
    BlankIff(r2);
  }

  lemma CancelIff(received: string, w: string)
    ensures ParseMessage(received) == CancelMessage(w) <==> CancelForm(CString(received), w)
  {
    if ParseMessage(received) == CancelMessage(w) {
      CancelSound(received, w);
    }
    if CancelForm(CString(received), w) {
      var r1, r2 :| CancelParts(CString(received), r1, w, r2);
      CancelComplete(received, r1, w, r2);
    }
  }

  lemma ShutdownIff(received: string)
    ensures ParseMessage(received) == ShutdownMessage <==> ShutdownForm(CString(received))
    ensures IsShutdown(received) <==> ShutdownForm(CString(received))
  {
    var text := CString(received);
    if ParseMessage(received) == ShutdownMessage {
      ScanWordIff(text, "shutdown", ScanWord(text).value.1);
    }
    if ShutdownForm(text) {
      var r1 :| Then(text, "shutdown", r1);
      ScanWordIff(text, "shutdown", r1);
    }
  }

  /** Every other text is refused. */
  lemma BadIff(received: string)
    ensures ParseMessage(received) == BadMessage <==>
      var text := CString(received);
      && (forall w1, w2 :: !AddForm(text, w1, w2)) && (forall w :: !CancelForm(text, w)) && !ShutdownForm(text)
  {
    forall w1, w2
      ensures ParseMessage(received) == AddMessage(w1, w2) <==> AddForm(CString(received), w1, w2)
    {
      AddIff(received, w1, w2);
    }
    forall w
      ensures ParseMessage(received) == CancelMessage(w) <==> CancelForm(CString(received), w)
    {
      CancelIff(received, w);
    }
    ShutdownIff(received);
  }

  // ---------------------------------------------------------------- printed endpoints

  /** Endpoints that can be given as one word of a text. */
  predicate Writable(e: Endpoint) {
    Printable(e) && Unspaced(e) && '\0' !in e.dir && '\0' !in e.host
  }

  lemma PrintPlain(e: Endpoint)
    requires Writable(e)
    ensures IsWord(Print(e)) && '\0' !in Print(e) && Parse(Print(e)) == Some(e)
  {
    UnspacedPrintsWord(e);
    RoundTripIff(e);
    assert '\0' !in DecimalInt(e.port);
  }

  lemma ThenOfSplit(blank: string, w: string, rest: string)
    requires IsBlank(blank) && IsWord(w) && EndsWord(rest)
    ensures Then(blank + w + rest, w, rest)
  {
    assert WordBehind(blank + w + rest, blank, w, rest);
  }

  lemma AddTextParts(w1: string, w2: string)
    requires '\0' !in w1 && '\0' !in w2
    ensures "add " + w1 + " " + w2 + "\n" == "add" + (" " + w1 + (" " + w2 + "\n"))
    ensures '\0' !in "add " + w1 + " " + w2 + "\n"
  {
  }

  lemma AddTextForm(text: string, r1: string, w1: string, r2: string, w2: string)
    requires IsWord(w1) && IsWord(w2)
    requires text == "add" + r1 && r1 == " " + w1 + r2 && r2 == " " + w2 + "\n"
    ensures AddForm(text, w1, w2)
  {
    CommandThen("add", r1);
    ThenOfSplit(" ", w1, r2);
    ThenOfSplit(" ", w2, "\n");
    assert AddParts(text, r1, w1, r2, w2, "\n");
  }

  lemma AddText(w1: string, w2: string)
    requires IsWord(w1) && IsWord(w2) && '\0' !in w1 && '\0' !in w2
    ensures ParseMessage("add " + w1 + " " + w2 + "\n") == AddMessage(w1, w2)
  {
    var text := "add " + w1 + " " + w2 + "\n";
    AddTextParts(w1, w2);
    Wire.CStringOfText(text);
    AddTextForm(text, " " + w1 + (" " + w2 + "\n"), w1, " " + w2 + "\n", w2);
    AddIff(text, w1, w2);
  }

  lemma CommandThen(command: string, rest: string)
    requires IsWord(command) && EndsWord(rest)
    ensures Then(command + rest, command, rest)
  {
    ThenOfSplit("", command, rest);
    assert "" + command + rest == command + rest;
  }

  lemma CancelTextParts(w: string)
    requires '\0' !in w
    ensures "cancel " + w + "\n" == "cancel" + (" " + w + "\n") && '\0' !in "cancel " + w + "\n"
  {
  }

  lemma CancelTextForm(text: string, r1: string, w: string)
    requires IsWord(w) && text == "cancel" + r1 && r1 == " " + w + "\n"
    ensures CancelForm(text, w)
  {
    CommandThen("cancel", r1);
    ThenOfSplit(" ", w, "\n");
    assert CancelParts(text, r1, w, "\n");
  }

  lemma CancelText(w: string)
    requires IsWord(w) && '\0' !in w
    ensures ParseMessage("cancel " + w + "\n") == CancelMessage(w)
  {
    var text := "cancel " + w + "\n";
    CancelTextParts(w);
    Wire.CStringOfText(text);
    CancelTextForm(text, " " + w + "\n", w);
    CancelIff(text, w);
  }

  lemma PrintedAdd(source: Endpoint, target: Endpoint)
    requires Writable(source) && Writable(target)
    ensures ParseMessage("add " + Print(source) + " " + Print(target) + "\n")
      == AddMessage(Print(source), Print(target))
  {
    PrintPlain(source);
    PrintPlain(target);
    AddText(Print(source), Print(target));
  }

  lemma PrintedCancel(source: Endpoint)
    requires Writable(source)
    ensures ParseMessage("cancel " + Print(source) + "\n") == CancelMessage(Print(source))
  {
    PrintPlain(source);
    CancelText(Print(source));
  }

  // ---------------------------------------------------------------- what they do

  /** The command adds this pair: a new source is stored with exactly this target, a known one
      leaves everything as it is. */
  ghost predicate Adds(b: Books, c: Command, source: Endpoint, target: Endpoint) {
    && (IndexOf(b.entries, source).Some? ==> Apply(b, c) == b)
    && (IndexOf(b.entries, source).None? ==>
          Apply(b, c).entries == [Entry(source, target, true)] + b.entries
          && Apply(b, c).started == b.started + [source])
  }

  lemma AddCommandAdds(b: Books, source: Endpoint, target: Endpoint, c: Command)
    requires Writable(source) && Writable(target)
    requires c.Add? && c.sourceSpec == Print(source) && c.targetSpec == Print(target)
    ensures Adds(b, c, source, target)
  {
    PrintPlain(source);
    PrintPlain(target);
    ApplyAdd(b, c, Entry(source, target, true));
  }

  /** An "add" message with two printed endpoints stores exactly that source with that target. */
  lemma ConsoleAddStores(b: Books, source: Endpoint, target: Endpoint, reply: Option<string>, c: Command)
    requires Writable(source) && Writable(target)
    requires MessageMeans("add " + Print(source) + " " + Print(target) + "\n", reply, c)
    ensures Adds(b, c, source, target)
  {
    PrintedAdd(source, target);
    AddCommandAdds(b, source, target, c);
  }

  /** So does a configuration line, unless it begins with the mark of a comment: then it does
      nothing. */
  lemma ConfigLineStores(b: Books, source: Endpoint, target: Endpoint, reply: Option<string>, c: Command)
    requires Writable(source) && Writable(target)
    requires LineMeans(Print(source) + " " + Print(target) + "\n", reply, c)
    ensures if source.dir != "" && source.dir[0] == '#' then Apply(b, c) == b else Adds(b, c, source, target)
  {
    var line := Print(source) + " " + Print(target) + "\n";
    PrintPlain(source);
    PrintPlain(target);
    ScanTwoOfPrinted(source, target);
    assert line[0] == Print(source)[0];
    assert line[0] == (if source.dir == "" then '@' else source.dir[0]);
    assert line[0] != '\n';
    if line[0] != '#' {
      AddCommandAdds(b, source, target, c);
    }
  }

  /** A "cancel" message with a printed endpoint lowers the flag of exactly that pair. */
  lemma ConsoleCancelClears(b: Books, source: Endpoint, reply: Option<string>, c: Command)
    requires Writable(source) && SyncEntries.Distinct(b.entries)
    requires MessageMeans("cancel " + Print(source) + "\n", reply, c)
    ensures var es, es' := b.entries, Apply(b, c).entries;
      && Apply(b, c) == b.(entries := es') && |es'| == |es|
      && forall k :: 0 <= k < |es| ==>
           es'[k] == if es[k].source == source then es[k].(active := false) else es[k]
  {
    PrintPlain(source);
    PrintedCancel(source);
    CancelMeans(b, Print(source));
  }

  /** A comment, an empty line, and a line of less than two words do nothing. */
  lemma OtherLinesDoNothing(b: Books, line: string, reply: Option<string>, c: Command)
    requires line == "" || line[0] == '\n' || line[0] == '#' || IsBlank(line) || OneWord(line)
    requires LineMeans(line, reply, c)
    ensures Apply(b, c) == b
  {
    BlankIff(line);
    if OneWord(line) {
      var w, rest :| Then(line, w, rest) && IsBlank(rest);
      ScanWordIff(line, w, rest);
      BlankIff(rest);
    }
  }

  ghost predicate OneWord(line: string) { exists w, rest :: Then(line, w, rest) && IsBlank(rest) }

  /** A message that neither adds nor cancels leaves the books as they are. */
  lemma OtherMessagesDoNothing(b: Books, received: string, reply: Option<string>, c: Command)
    requires forall w1, w2 :: !AddForm(CString(received), w1, w2)
    requires forall w :: !CancelForm(CString(received), w)
    requires MessageMeans(received, reply, c)
    ensures Apply(b, c) == b
  {
    match ParseMessage(received)
    case AddMessage(w1, w2) => AddIff(received, w1, w2);
    case CancelMessage(w) => CancelIff(received, w);
    case _ =>
  }
}
