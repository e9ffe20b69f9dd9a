/** What the manager's commands do to its books, and what every run of commands guarantees
    (`src/nfs_manager_logic.c:108-377`). */
module ManagerRuns {
  import opened Options
  import opened CText
  import opened DirectorySpec
  import opened Wire
  import opened Jobs
  import opened SyncEntries

  /** The store, the synchronisations started so far, and the jobs the pool has accepted. */
  datatype Books = Books(entries: seq<Entry>, started: seq<Endpoint>, accepted: seq<Job>, nextId: nat)

  /** A command with what the outside world does during it: the source's LIST reply (absent
      when the source cannot be asked) and how many of the listed jobs the pool accepts before
      it shuts down. */
  datatype Command =
    | Add(sourceSpec: string, targetSpec: string, reply: Option<string>, taken: nat)
    | Cancel(sourceSpec: string)
    | Other

  /** The jobs of a listing, numbered in the order of their creation. */
  function JobsOf(firstId: nat, entry: Entry, names: seq<string>): (jobs: seq<Job>)
    ensures |jobs| == |names|
    ensures forall i :: 0 <= i < |names| ==> jobs[i] == CreateJob(firstId + i, entry.source, entry.target, names[i])
  {
    seq(|names|, i requires 0 <= i < |names| => CreateJob(firstId + i, entry.source, entry.target, names[i]))
  }

  /** The check at the head of `start_directory_sync`. */
  predicate Syncable(entry: Entry) {
    entry.source.host != "" && entry.source.dir != "" && entry.target.host != "" && entry.target.dir != ""
  }

  /** Whether a listing comes back. */
  predicate CanList(entry: Entry, reply: Option<string>) {
    Syncable(entry) && reply != None && reply.value != ""
  }

  /** The names one `start_directory_sync` makes jobs of. */
  function NamesFor(entry: Entry, reply: Option<string>): seq<string> {
    if CanList(entry, reply) then ParseListing(CString(reply.value)) else []
  }

  function Min(a: nat, b: nat): nat { if a < b then a else b }

  function Started(b: Books, entry: Entry, names: seq<string>, taken: nat): Books {
    b.(started := b.started + [entry.source], nextId := b.nextId + |names|,
       accepted := b.accepted + JobsOf(b.nextId, entry, names)[..Min(taken, |names|)])
  }

  lemma StartedBy(b: Books, entry: Entry, names: seq<string>, taken: nat)
    requires taken <= |names|
    ensures Started(b, entry, names, taken) == b.(started := b.started + [entry.source],
      nextId := b.nextId + |names|, accepted := b.accepted + JobsOf(b.nextId, entry, names)[..taken])
  {
  }

  /** `handle_add_command` behind the two parsers. */
  function Adding(b: Books, entry: Entry, names: seq<string>, taken: nat): Books {
    if IndexOf(b.entries, entry.source).Some? then b
    else Started(b.(entries := [entry] + b.entries), entry, names, taken)
  }

  /** `handle_cancel_command` behind the parser. */
  function Cancelling(b: Books, key: Endpoint): Books {
    b.(entries := OnList(b.entries, DeactivateOp(key)).0)
  }

  /** How many jobs `handle_add_command` offers to the pool. */
  function Offered(b: Books, entry: Entry, reply: Option<string>): nat {
    if IndexOf(b.entries, entry.source).Some? then 0 else |NamesFor(entry, reply)|
  }

  function ParsePair(sourceSpec: string, targetSpec: string): Option<Entry> {
    match (Parse(sourceSpec), Parse(targetSpec))
    case (Some(source), Some(target)) => Some(Entry(source, target, true))
    case _ => None
  }

  function Apply(b: Books, c: Command): Books {
    match c
    case Other => b
    case Cancel(spec) =>
      (match Parse(spec)
       case None => b
       case Some(key) => Cancelling(b, key))
    case Add(sourceSpec, targetSpec, reply, taken) =>
      match ParsePair(sourceSpec, targetSpec)
      case None => b
      case Some(entry) => Adding(b, entry, NamesFor(entry, reply), taken)
  }

  /** The result of `handle_add_command`. */
  function AddResult(b: Books, sourceSpec: string, targetSpec: string, reply: Option<string>): int {
    match ParsePair(sourceSpec, targetSpec)
    case None => -1
    case Some(entry) => AddingResult(b, entry, reply)
  }

  function AddingResult(b: Books, entry: Entry, reply: Option<string>): int {
    if IndexOf(b.entries, entry.source).Some? then 1 else if CanList(entry, reply) then 0 else -1
  }

  /** The result of `handle_cancel_command`. */
  function CancelResult(b: Books, spec: string): int {
    match Parse(spec)
    case None => -1
    case Some(key) => if IndexOf(b.entries, key).Some? then 0 else 1
  }

  function Run(b: Books, commands: seq<Command>): Books
    decreases |commands|
  {
    if commands == [] then b else Run(Apply(b, commands[0]), commands[1..])
  }

  lemma {:induction false} RunMore(b: Books, commands: seq<Command>, c: Command)
    ensures Run(b, commands + [c]) == Apply(Run(b, commands), c)
    decreases |commands|
  {
    if commands == [] {
      assert commands + [c] == [c];
    } else {
      assert (commands + [c])[1..] == commands[1..] + [c];
      RunMore(Apply(b, commands[0]), commands[1..], c);
    }
  }

  // ---------------------------------------------------------------- what the pool is offered

  /** The jobs a command makes, in order. How many the pool takes has no influence on them. */
  function OfferOf(b: Books, c: Command): seq<Job> {
    if !c.Add? then []
    else
      match ParsePair(c.sourceSpec, c.targetSpec)
      case None => []
      case Some(entry) => PairOffer(b, entry, c.reply)
  }

  function PairOffer(b: Books, entry: Entry, reply: Option<string>): seq<Job> {
    if IndexOf(b.entries, entry.source).Some? then [] else JobsOf(b.nextId, entry, NamesFor(entry, reply))
  }

  /** The jobs a run of commands makes, in order. */
  function Offers(b: Books, commands: seq<Command>): seq<Job>
    decreases |commands|
  {
    if commands == [] then [] else OfferOf(b, commands[0]) + Offers(Apply(b, commands[0]), commands[1..])
  }

  lemma {:induction false} OffersMore(b: Books, commands: seq<Command>, c: Command)
    ensures Offers(b, commands + [c]) == Offers(b, commands) + OfferOf(Run(b, commands), c)
    decreases |commands|
  {
    if commands == [] {
      assert commands + [c] == [c];
      assert Offers(Apply(b, c), [c][1..]) == [];
    } else {
      assert (commands + [c])[1..] == commands[1..] + [c];
      OffersMore(Apply(b, commands[0]), commands[1..], c);
    }
  }

  /** A pool that may close on the way takes a prefix of what it is offered: all of it while it
      stays open, nothing once it has closed. */
  ghost predicate TakenInOrder(before: seq<Job>, wasClosed: bool, offered: seq<Job>, after: seq<Job>, closed: bool) {
    && before <= after <= before + offered
    && (!closed ==> after == before + offered)
    && (wasClosed ==> closed && after == before)
  }

  lemma NothingTaken(jobs: seq<Job>, closed: bool)
    ensures TakenInOrder(jobs, closed, [], jobs, closed)
  {
    assert jobs + [] == jobs;
  }

  lemma TakenMore(a: seq<Job>, closedA: bool, o1: seq<Job>, b: seq<Job>, closedB: bool, o2: seq<Job>,
                  c: seq<Job>, closedC: bool)
    requires TakenInOrder(a, closedA, o1, b, closedB) && TakenInOrder(b, closedB, o2, c, closedC)
    ensures TakenInOrder(a, closedA, o1 + o2, c, closedC)
  {
    assert (a + o1) + o2 == a + (o1 + o2);
    if closedB {
      assert c == b && a + o1 <= a + (o1 + o2);
    }
  }

  /** One command carried out on the books, with a pool that may close on the way. */
  ghost predicate Did(before: Books, wasClosed: bool, c: Command, after: Books, closed: bool) {
    && after == Apply(before, c)
    && TakenInOrder(before.accepted, wasClosed, OfferOf(before, c), after.accepted, closed)
  }

  /** A run of commands carried out on the books, with a pool that may close on the way. */
  ghost predicate Ran(start: Books, wasClosed: bool, commands: seq<Command>, now: Books, closed: bool) {
    && now == Run(start, commands)
    && TakenInOrder(start.accepted, wasClosed, Offers(start, commands), now.accepted, closed)
  }

  lemma RanNothing(b: Books, closed: bool)
    ensures Ran(b, closed, [], b, closed)
  {
    NothingTaken(b.accepted, closed);
  }

  lemma RanMore(start: Books, wasClosed: bool, commands: seq<Command>, now: Books, closed: bool,
                c: Command, next: Books, closedNext: bool)
    requires Ran(start, wasClosed, commands, now, closed) && Did(now, closed, c, next, closedNext)
    ensures Ran(start, wasClosed, commands + [c], next, closedNext)
  {
    RunMore(start, commands, c);
    OffersMore(start, commands, c);
    TakenMore(start.accepted, wasClosed, Offers(start, commands), now.accepted, closed,
              OfferOf(now, c), next.accepted, closedNext);
  }

  lemma DidNothing(b: Books, wasClosed: bool, closed: bool)
    requires wasClosed ==> closed
    ensures Did(b, wasClosed, Other, b, closed)
  {
    assert b.accepted + [] == b.accepted;
  }

  lemma DidCancel(b: Books, closed: bool, spec: string)
    ensures Did(b, closed, Cancel(spec), Apply(b, Cancel(spec)), closed)
  {
    var after := Apply(b, Cancel(spec));
    assert after.accepted == b.accepted && OfferOf(b, Cancel(spec)) == [];
    assert b.accepted + [] == b.accepted;
  }

  lemma DidAdd(b: Books, wasClosed: bool, c: Command, closed: bool)
    requires c.Add? && (wasClosed ==> closed)
    requires match ParsePair(c.sourceSpec, c.targetSpec)
             case None => true
             case Some(entry) =>
               && c.taken <= Offered(b, entry, c.reply)
               && (c.taken < Offered(b, entry, c.reply) ==> closed) && (wasClosed ==> c.taken == 0)
    ensures Did(b, wasClosed, c, Apply(b, c), closed)
  {
    var pair := ParsePair(c.sourceSpec, c.targetSpec);
    if pair.Some? {
      ApplyAdd(b, c, pair.value);
      PairTaken(b, pair.value, c.reply, c.taken, wasClosed, closed);
    } else {
      assert Apply(b, c) == b && OfferOf(b, c) == [];
      assert b.accepted + [] == b.accepted;
    }
  }

  /** A run after which the pool is open left no job behind, and kept the books consistent. */
  lemma RanToTheEnd(start: Books, wasClosed: bool, commands: seq<Command>, now: Books, closed: bool)
    requires Ran(start, wasClosed, commands, now, closed)
    ensures !closed ==> now == Run(start, AllTaken(commands))
    ensures Consistent(start) ==> Consistent(now)
  {
    if !closed {
      OpenPoolTakesAll(start, commands);
    }
    if Consistent(start) {
      StartedAtMostOnce(start, commands);
    }
  }

  /** The two ways to say what a command did to the pool. */
  lemma PairTaken(b: Books, entry: Entry, reply: Option<string>, taken: nat, wasClosed: bool, closed: bool)
    requires taken <= Offered(b, entry, reply) && (taken < Offered(b, entry, reply) ==> closed)
    requires wasClosed ==> closed && taken == 0
    ensures TakenInOrder(b.accepted, wasClosed, PairOffer(b, entry, reply),
                         Adding(b, entry, NamesFor(entry, reply), taken).accepted, closed)
  {
    var offer := PairOffer(b, entry, reply);
    assert Adding(b, entry, NamesFor(entry, reply), taken).accepted == b.accepted + offer[..taken];
    assert taken == |offer| ==> offer[..taken] == offer;
  }

  /** The command with a pool that takes every job. */
  function Generous(c: Command): Command {
    if !c.Add? then c
    else
      match ParsePair(c.sourceSpec, c.targetSpec)
      case None => c
      case Some(entry) => c.(taken := |NamesFor(entry, c.reply)|)
  }

  function AllTaken(commands: seq<Command>): seq<Command> {
    if commands == [] then [] else [Generous(commands[0])] + AllTaken(commands[1..])
  }

  predicate SameBut(b: Books, b': Books) {
    b'.entries == b.entries && b'.started == b.started && b'.nextId == b.nextId
  }

  lemma GenerousPair(b: Books, b': Books, entry: Entry, reply: Option<string>, taken: nat)
    requires SameBut(b, b')
    ensures var names := NamesFor(entry, reply);
      && SameBut(Adding(b, entry, names, taken), Adding(b', entry, names, |names|))
      && Adding(b', entry, names, |names|).accepted == b'.accepted + PairOffer(b, entry, reply)
  {
    var names := NamesFor(entry, reply);
    var jobs := JobsOf(b.nextId, entry, names);
    assert jobs[..|names|] == jobs;
    assert b'.accepted + [] == b'.accepted;
  }

  lemma ApplyAdd(b: Books, c: Command, entry: Entry)
    requires c.Add? && ParsePair(c.sourceSpec, c.targetSpec) == Some(entry)
    ensures Apply(b, c) == Adding(b, entry, NamesFor(entry, c.reply), c.taken)
    ensures OfferOf(b, c) == PairOffer(b, entry, c.reply)
    ensures Generous(c) == c.(taken := |NamesFor(entry, c.reply)|)
  {
  }

  lemma GenerousStep(b: Books, b': Books, c: Command)
    requires SameBut(b, b')
    ensures SameBut(Apply(b, c), Apply(b', Generous(c)))
    ensures Apply(b', Generous(c)).accepted == b'.accepted + OfferOf(b, c)
  {
    if c.Add? && ParsePair(c.sourceSpec, c.targetSpec).Some? {
      var entry := ParsePair(c.sourceSpec, c.targetSpec).value;
      ApplyAdd(b, c, entry);
      ApplyAdd(b', Generous(c), entry);
      GenerousPair(b, b', entry, c.reply, c.taken);
    } else {
      assert Generous(c) == c && OfferOf(b, c) == [];
      assert b'.accepted + [] == b'.accepted;
    }
  }

  lemma RunFirst(b: Books, c: Command, rest: seq<Command>)
    ensures Run(b, [c] + rest) == Run(Apply(b, c), rest)
    ensures Offers(b, [c] + rest) == OfferOf(b, c) + Offers(Apply(b, c), rest)
  {
    assert ([c] + rest)[1..] == rest;
  }

  lemma AddUp(a: seq<Job>, b: seq<Job>, c: seq<Job>)
    ensures (a + b) + c == a + (b + c)
  {
  }

  lemma {:induction false} GenerousRun(b: Books, b': Books, commands: seq<Command>)
    requires SameBut(b, b')
    ensures SameBut(Run(b, commands), Run(b', AllTaken(commands)))
    ensures Run(b', AllTaken(commands)).accepted == b'.accepted + Offers(b, commands)
    decreases |commands|
  {
    if commands == [] {
      assert b'.accepted + [] == b'.accepted;
    } else {
      var c, rest := commands[0], commands[1..];
      GenerousStep(b, b', c);
      GenerousRun(Apply(b, c), Apply(b', Generous(c)), rest);
      assert commands == [c] + rest;
      RunFirst(b, c, rest);
      RunFirst(b', Generous(c), AllTaken(rest));
      AddUp(b'.accepted, OfferOf(b, c), Offers(Apply(b, c), rest));
    }
  }

  /** If the pool has taken all it was offered, the run is the one in which it takes every job
      of every command. */
  lemma OpenPoolTakesAll(b: Books, commands: seq<Command>)
    requires Run(b, commands).accepted == b.accepted + Offers(b, commands)
    ensures Run(b, commands) == Run(b, AllTaken(commands))
  {
    GenerousRun(b, b, commands);
  }

  /** The jobs copy the files of a listing from this source to this target, in order. */
  ghost predicate JobsFor(jobs: seq<Job>, source: Endpoint, target: Endpoint, names: seq<string>) {
    && |jobs| == |names|
    && forall k :: 0 <= k < |jobs| ==>
         jobs[k].source == source && jobs[k].target == target && NamedAfter(jobs[k], names[k])
  }

  /** A name of 256 characters or more is cut. */
  predicate NamedAfter(job: Job, name: string) {
    if |name| < MAX_FILENAME then job.filename == name else job.filename <= name && |job.filename| == MAX_FILENAME - 1
  }

  lemma ListedJobs(firstId: nat, entry: Entry, names: seq<string>, taken: nat)
    requires Fits(entry.source) && Fits(entry.target) && taken <= |names|
    ensures JobsFor(JobsOf(firstId, entry, names)[..taken], entry.source, entry.target, names[..taken])
  {
  }

  lemma AcceptedFor(before: seq<Job>, firstId: nat, entry: Entry, names: seq<string>, taken: nat)
    requires taken <= |names|
    ensures var after := before + JobsOf(firstId, entry, names)[..taken];
      Fits(entry.source) && Fits(entry.target) ==>
        JobsFor(after[|before|..], entry.source, entry.target, names[..taken])
  {
    var jobs := JobsOf(firstId, entry, names)[..taken];
    assert (before + jobs)[|before|..] == jobs;
    if Fits(entry.source) && Fits(entry.target) {
      ListedJobs(firstId, entry, names, taken);
    }
  }

  /** A new pair whose source answers with a whole listing of file names: the pair is stored, the
      command succeeds, and if the pool takes all it is offered, exactly one job for each file,
      in order, from this source to this target, is added to what it has accepted. */
  lemma {:induction false} AddOfListing(b: Books, c: Command, source: Endpoint, target: Endpoint, names: seq<string>)
    requires c.Add? && Parse(c.sourceSpec) == Some(source) && Parse(c.targetSpec) == Some(target)
    requires IndexOf(b.entries, source).None?
    requires source.host != "" && source.dir != "" && target.host != "" && target.dir != ""
    requires AllListable(names) && c.reply == Some(ListReply(names)) && c.taken >= |names|
    ensures AddResult(b, c.sourceSpec, c.targetSpec, c.reply) == 0
    ensures Apply(b, c).entries == [Entry(source, target, true)] + b.entries
    ensures b.accepted <= Apply(b, c).accepted && Apply(b, c).nextId == b.nextId + |names|
    ensures JobsFor(Apply(b, c).accepted[|b.accepted|..], source, target, names)
  {
    var entry := Entry(source, target, true);
    ApplyAdd(b, c, entry);
    WholeListing(names);
    ParsedIsCopiedExactly(c.sourceSpec, source);
    ParsedIsCopiedExactly(c.targetSpec, target);
    assert NamesFor(entry, c.reply) == names;
    ListedJobs(b.nextId, entry, names, |names|);
    var jobs := JobsOf(b.nextId, entry, names);
    assert jobs[..|names|] == jobs && names[..|names|] == names;
    assert (b.accepted + jobs)[|b.accepted|..] == jobs;
  }

  lemma WholeListing(names: seq<string>)
    requires AllListable(names)
    ensures ListReply(names) != "" && ParseListing(CString(ListReply(names))) == names
  {
    var reply := ListReply(names);
    LinesPlain(names);
    CStringOfText(reply);
    ListingReadIff(names, |reply|);
    assert reply[..|reply|] == reply;
  }

  predicate Known(b: Books, source: Option<Endpoint>) {
    source.Some? && IndexOf(b.entries, source.value).Some?
  }

  /** An add whose texts are not both accepted, or whose source is known, changes nothing. */
  lemma AddRefused(b: Books, c: Command)
    requires c.Add?
    ensures Parse(c.sourceSpec).None? || Parse(c.targetSpec).None? ==>
      Apply(b, c) == b && AddResult(b, c.sourceSpec, c.targetSpec, c.reply) == -1
    ensures Parse(c.targetSpec).Some? && Known(b, Parse(c.sourceSpec)) ==>
      Apply(b, c) == b && AddResult(b, c.sourceSpec, c.targetSpec, c.reply) == 1
  {
  }

  /** What a cancel does, wherever the pair stands: its flag goes down, everything else stays. */
  lemma {:induction false} CancelMeans(b: Books, spec: string)
    requires SyncEntries.Distinct(b.entries)
    ensures Parse(spec).None? ==> Apply(b, Cancel(spec)) == b && CancelResult(b, spec) == -1
    ensures Parse(spec).Some? ==>
      var es, es' := b.entries, Apply(b, Cancel(spec)).entries;
      && Apply(b, Cancel(spec)) == b.(entries := es') && |es'| == |es|
      && (forall k :: 0 <= k < |es| ==>
            es'[k] == if es[k].source == Parse(spec).value then es[k].(active := false) else es[k])
      && CancelResult(b, spec)
         == (if exists k :: 0 <= k < |es| && es[k].source == Parse(spec).value then 0 else 1)
  {
    if Parse(spec).Some? {
      DeactivateMeans(b.entries, Parse(spec).value);
    }
  }

  // ---------------------------------------------------------------- a listing that fails

  /** A new pair whose listing fails makes the add command return -1, yet the pair stays: every
      later add of its source answers 1 and changes nothing, so it is never listed again. */
  lemma FailedListingIsFinal(b: Books, add: Command, again: Command, entry: Entry)
    requires add.Add? && ParsePair(add.sourceSpec, add.targetSpec) == Some(entry)
    requires IndexOf(b.entries, entry.source).None?
    requires entry.source.host == "" || entry.source.dir == "" || entry.target.host == "" || entry.target.dir == ""
      || add.reply == None || add.reply == Some("")
    requires again.Add? && ParsePair(again.sourceSpec, again.targetSpec).Some?
    requires Parse(again.sourceSpec) == Some(entry.source)
    ensures AddResult(b, add.sourceSpec, add.targetSpec, add.reply) == -1 && OfferOf(b, add) == []
    ensures AddResult(Apply(b, add), again.sourceSpec, again.targetSpec, again.reply) == 1
    ensures Apply(Apply(b, add), again) == Apply(b, add)
  {
    DeactivateHead(b.entries, entry);
    assert Apply(b, add) == Adding(b, entry, NamesFor(entry, add.reply), add.taken);
    assert Apply(b, add).entries == [entry] + b.entries;
  }

  // ---------------------------------------------------------------- key stability

  /** The lengths the parser enforces make the copies into an entry and into a job exact. */
  lemma {:induction false} ParsedIsCopiedExactly(spec: string, e: Endpoint)
    requires Parse(spec) == Some(e)
    ensures CopyEndpoint(e) == e
  {
    var rest := ParseSound(spec, e);
  }

  /** After a pair has been added, cancelling with any text that parses to the same source
      finds that pair, turns it off, and leaves every other pair as it was. */
  lemma {:induction false} CancelHitsTheAddedPair(b: Books, add: Command, spec: string, entry: Entry)
    requires add.Add? && ParsePair(add.sourceSpec, add.targetSpec) == Some(entry)
    requires IndexOf(b.entries, entry.source).None? && Parse(spec) == Some(entry.source)
    ensures CancelResult(Apply(b, add), spec) == 0
    ensures Apply(Apply(b, add), Cancel(spec)).entries == [entry.(active := false)] + b.entries
  {
    var added := Adding(b, entry, NamesFor(entry, add.reply), add.taken);
    DeactivateHead(b.entries, entry);
    assert Apply(b, add) == added;
    assert Apply(added, Cancel(spec)) == Cancelling(added, entry.source);
  }

  lemma DeactivateHead(es: seq<Entry>, entry: Entry)
    ensures IndexOf([entry] + es, entry.source) == Some(0)
    ensures OnList([entry] + es, DeactivateOp(entry.source)).0 == [entry.(active := false)] + es
  {
    assert ([entry] + es)[0 := entry.(active := false)] == [entry.(active := false)] + es;
  }

  // ---------------------------------------------------------------- every run

  ghost predicate NoRepeats<T(!new)>(s: seq<T>) {
    forall i, j :: 0 <= i < j < |s| ==> s[i] != s[j]
  }

  /** A key is stored exactly if its synchronisation has been started, which happened once. */
  ghost predicate Consistent(b: Books) {
    && Distinct(b.entries) && NoRepeats(b.started)
    && forall key :: key in b.started <==> IndexOf(b.entries, key).Some?
  }

  lemma AddConsistent(b: Books, entry: Entry, names: seq<string>, taken: nat)
    requires Consistent(b) && IndexOf(b.entries, entry.source).None?
    ensures Consistent(Adding(b, entry, names, taken))
  {
    var es := [entry] + b.entries;
    assert es[1..] == b.entries;
    assert entry.source !in b.started;
    forall key
      ensures key in b.started + [entry.source] <==> IndexOf(es, key).Some?
    {
      assert IndexOf(es, key).Some? <==> key == entry.source || IndexOf(b.entries, key).Some?;
    }
  }

  lemma DeactivateConsistent(b: Books, key: Endpoint)
    requires Consistent(b)
    ensures Consistent(Cancelling(b, key))
  {
    var es' := OnList(b.entries, DeactivateOp(key)).0;
    assert |es'| == |b.entries| && forall i :: 0 <= i < |es'| ==> es'[i].source == b.entries[i].source;
    forall k
      ensures IndexOf(es', k).Some? <==> IndexOf(b.entries, k).Some?
    {
      SameSources(es', b.entries, k);
    }
  }

  lemma SameSources(a: seq<Entry>, b: seq<Entry>, key: Endpoint)
    requires |a| == |b| && forall i :: 0 <= i < |a| ==> a[i].source == b[i].source
    ensures IndexOf(a, key).Some? <==> IndexOf(b, key).Some?
  {
    if IndexOf(a, key).Some? {
      assert b[IndexOf(a, key).value].source == key;
    }
    if IndexOf(b, key).Some? {
      assert a[IndexOf(b, key).value].source == key;
    }
  }

  lemma ApplyConsistent(b: Books, c: Command)
    requires Consistent(b)
    ensures Consistent(Apply(b, c))
  {
    match c
    case Other =>
    case Cancel(spec) => if Parse(spec).Some? { DeactivateConsistent(b, Parse(spec).value); }
    case Add(sourceSpec, targetSpec, reply, taken) =>
      var pair := ParsePair(sourceSpec, targetSpec);
      if pair.Some? && IndexOf(b.entries, pair.value.source).None? {
        AddConsistent(b, pair.value, NamesFor(pair.value, reply), taken);
      }
  }

  /** Over any run of configuration lines and commands, each source is listed at most once,
      however often it is added, cancelled or added again. */
  lemma {:induction false} StartedAtMostOnce(b: Books, commands: seq<Command>)
    requires Consistent(b)
    ensures Consistent(Run(b, commands))
    decreases |commands|
  {
    if commands != [] {
      ApplyConsistent(b, commands[0]);
      StartedAtMostOnce(Apply(b, commands[0]), commands[1..]);
    }
  }

  // ---------------------------------------------------------------- no job twice

  /** Every listing names each file once, as cut to the length of a job's name field. */
  ghost predicate CleanListings(commands: seq<Command>) {
    forall i :: 0 <= i < |commands| ==> CleanListing(commands[i])
  }

  ghost predicate CleanListing(c: Command) {
    c.Add? && c.reply.Some? ==> DistinctNames(ParseListing(CString(c.reply.value)))
  }

  /** No file of a source has been accepted twice, and only started sources have jobs. */
  ghost predicate JobsUnique(b: Books) {
    && (forall i, j :: 0 <= i < j < |b.accepted| ==>
          b.accepted[i].source != b.accepted[j].source || b.accepted[i].filename != b.accepted[j].filename)
    && (forall i :: 0 <= i < |b.accepted| ==> b.accepted[i].source in b.started)
  }

  ghost predicate DistinctNames(names: seq<string>) {
    forall i, j :: 0 <= i < j < |names| ==> Field(names[i], MAX_FILENAME) != Field(names[j], MAX_FILENAME)
  }

  lemma AddingJobsUnique(b: Books, entry: Entry, names: seq<string>, taken: nat)
    requires Consistent(b) && JobsUnique(b) && DistinctNames(names)
    requires CopyEndpoint(entry.source) == entry.source
    ensures JobsUnique(Adding(b, entry, names, taken))
  {
    if IndexOf(b.entries, entry.source).None? {
      var jobs := JobsOf(b.nextId, entry, names)[..Min(taken, |names|)];
      var all := b.accepted + jobs;
      assert entry.source !in b.started;
      assert forall i :: 0 <= i < |jobs| ==>
        jobs[i].source == entry.source && jobs[i].filename == Field(names[i], MAX_FILENAME);
      forall i, j | 0 <= i < j < |all|
        ensures all[i].source != all[j].source || all[i].filename != all[j].filename
      {
        if i >= |b.accepted| {
          assert all[i] == jobs[i - |b.accepted|] && all[j] == jobs[j - |b.accepted|];
        } else if j >= |b.accepted| {
          assert all[j] == jobs[j - |b.accepted|] && all[i].source in b.started;
        }
      }
    }
  }

  lemma ApplyJobsUnique(b: Books, c: Command)
    requires Consistent(b) && JobsUnique(b) && CleanListing(c)
    ensures JobsUnique(Apply(b, c))
  {
    if c.Add? {
      var pair := ParsePair(c.sourceSpec, c.targetSpec);
      if pair.Some? {
        ParsedIsCopiedExactly(c.sourceSpec, pair.value.source);
        AddingJobsUnique(b, pair.value, NamesFor(pair.value, c.reply), c.taken);
      }
    }
  }

  /** So no file of a source is handed to the pool twice. */
  lemma {:induction false} AcceptedAtMostOnce(b: Books, commands: seq<Command>)
    requires Consistent(b) && JobsUnique(b) && CleanListings(commands)
    ensures JobsUnique(Run(b, commands))
    decreases |commands|
  {
    if commands != [] {
      assert CleanListing(commands[0]);
      ApplyConsistent(b, commands[0]);
      ApplyJobsUnique(b, commands[0]);
      assert CleanListings(commands[1..]);
      AcceptedAtMostOnce(Apply(b, commands[0]), commands[1..]);
    }
  }

  // ---------------------------------------------------------------- stored pairs

  /** The pair is still stored, with its target, and is not active unless it was. */
  ghost predicate Kept(e: Entry, es: seq<Entry>) {
    exists i :: 0 <= i < |es| && es[i].source == e.source && es[i].target == e.target && (es[i].active ==> e.active)
  }

  ghost predicate AllKept(before: seq<Entry>, after: seq<Entry>) {
    forall i :: 0 <= i < |before| ==> Kept(before[i], after)
  }

  lemma AddingKeeps(b: Books, entry: Entry, names: seq<string>, taken: nat)
    ensures AllKept(b.entries, Adding(b, entry, names, taken).entries)
  {
    var after := Adding(b, entry, names, taken).entries;
    forall i | 0 <= i < |b.entries|
      ensures Kept(b.entries[i], after)
    {
      assert after[if after == b.entries then i else i + 1] == b.entries[i];
    }
  }

  lemma CancellingKeeps(b: Books, key: Endpoint)
    ensures AllKept(b.entries, Cancelling(b, key).entries)
  {
    var after := Cancelling(b, key).entries;
    forall i | 0 <= i < |b.entries|
      ensures Kept(b.entries[i], after)
    {
      assert after[i].source == b.entries[i].source;
    }
  }

  lemma AllKeptAlready(es: seq<Entry>)
    ensures AllKept(es, es)
  {
    forall i | 0 <= i < |es|
      ensures Kept(es[i], es)
    {
      assert es[i] == es[i];
    }
  }

  lemma ApplyKeeps(b: Books, c: Command)
    ensures AllKept(b.entries, Apply(b, c).entries)
  {
    AllKeptAlready(b.entries);
    match c
    case Other =>
    case Cancel(spec) => if Parse(spec).Some? { CancellingKeeps(b, Parse(spec).value); }
    case Add(sourceSpec, targetSpec, reply, taken) =>
      var pair := ParsePair(sourceSpec, targetSpec);
      if pair.Some? { AddingKeeps(b, pair.value, NamesFor(pair.value, reply), taken); }
  }

  /** No command removes a pair, changes its target or makes it active again. */
  lemma {:induction false} PairsAreKept(b: Books, commands: seq<Command>, e: Entry)
    requires Kept(e, b.entries)
    ensures Kept(e, Run(b, commands).entries)
    decreases |commands|
  {
    if commands != [] {
      ApplyKeeps(b, commands[0]);
      var i :| 0 <= i < |b.entries| && b.entries[i].source == e.source && b.entries[i].target == e.target
        && (b.entries[i].active ==> e.active);
      assert Kept(b.entries[i], Apply(b, commands[0]).entries);
      PairsAreKept(Apply(b, commands[0]), commands[1..], e);
    }
  }
}
