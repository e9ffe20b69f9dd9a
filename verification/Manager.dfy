/** The manager's command handlers and loops on its own mutable state
    (`src/nfs_manager_logic.c`). */
module Manager {
  import opened Options
  import opened CText
  import opened DirectorySpec
  import opened Wire
  import opened Jobs
  import opened SyncEntries
  import opened SyncStore
  import opened ManagerRuns

  /** The pool as one caller of `enqueue_sync_job` sees it: at some moment, not of the caller's
      choosing, it stops accepting, and then it never accepts again. */
  class PoolHandle {
    var closed: bool
    var accepted: seq<Job>

    constructor ()
      ensures !closed && accepted == []
    {
      closed, accepted := false, [];
    }

    method Enqueue(job: Job) returns (rc: int)
      modifies this
      ensures old(closed) ==> closed
      ensures rc == if closed then -1 else 0
      ensures accepted == if closed then old(accepted) else old(accepted) + [job]
    {
      if * {
        closed := true;
      }
      if closed {
        return -1;
      }
      accepted := accepted + [job];
      rc := 0;
    }

    method SignalShutdown()
      modifies this
      ensures closed && accepted == old(accepted)
    {
      closed := true;
    }
  }

  /** A console message as `sscanf(buffer, "%s %s %s", ...)` and the comparisons behind it
      understand it. */
  datatype Message =
    | AddMessage(source: string, target: string)
    | CancelMessage(source: string)
    | ShutdownMessage
    | BadMessage

  function ParseMessage(received: string): Message {
    match ScanWord(CString(received))
    case None => BadMessage
    case Some(command) =>
      var arg1 := ScanWord(command.1);
      var arg2 := if arg1.Some? then ScanWord(arg1.value.1) else None;
      if command.0 == "add" && arg2.Some? then AddMessage(arg1.value.0, arg2.value.0)
      else if command.0 == "cancel" && arg1.Some? && arg2.None? then CancelMessage(arg1.value.0)
      else if command.0 == "shutdown" then ShutdownMessage
      else BadMessage
  }

  lemma TakeOneMore(base: seq<Job>, jobs: seq<Job>, k: nat, job: Job)
    requires k < |jobs| && jobs[k] == job
    ensures base + jobs[..k] + [job] == base + jobs[..k + 1]
  {
  }

  predicate AtEnd(next: Option<(string, string)>) { next.None? || next.value.0 == "." }

  lemma ListingEnds(names: seq<string>, i: nat, text: string)
    requires i <= |names| && ParseListing(text) == names[i..] && AtEnd(NextLine(text))
    ensures i == |names|
  {
  }

  lemma ListingAdvances(names: seq<string>, i: nat, text: string, line: string, rest: string)
    requires i <= |names| && ParseListing(text) == names[i..]
    requires NextLine(text) == Some((line, rest)) && line != "."
    ensures i < |names| && names[i] == line && ParseListing(rest) == names[i + 1..]
  {
    assert names[i..] == [line] + ParseListing(rest);
    assert names[i..][1..] == ParseListing(rest);
  }

  predicate IsShutdown(received: string) { ParseMessage(received) == ShutdownMessage }

  /** Of the first `n` messages none but possibly the last calls for a stop, and the loop has
      stopped exactly if that one does. */
  ghost predicate StopsAt(calls: string -> bool, messages: seq<string>, n: nat, stopped: bool) {
    && n <= |messages|
    && (forall k :: 0 <= k < n - 1 ==> !calls(messages[k]))
    && (stopped <==> n > 0 && calls(messages[n - 1]))
  }

  lemma StopsMore(calls: string -> bool, messages: seq<string>, n: nat, stopped: bool)
    requires StopsAt(calls, messages, n, false) && n < |messages|
    requires stopped == calls(messages[n])
    ensures StopsAt(calls, messages, n + 1, stopped)
  {
  }

  ghost predicate SomeCalls(calls: string -> bool, messages: seq<string>) {
    exists k :: 0 <= k < |messages| && calls(messages[k])
  }

  /** A loop that goes on until it is stopped or has seen everything stops if and only if one
      of the messages calls for it. */
  lemma {:induction false} StopsIff(calls: string -> bool, messages: seq<string>, n: nat, stopped: bool)
    requires StopsAt(calls, messages, n, stopped) && (stopped || n == |messages|)
    ensures stopped <==> SomeCalls(calls, messages)
  {
    if stopped {
      assert calls(messages[n - 1]);
    } else {
      assert forall k :: 0 <= k < |messages| ==> !calls(messages[k]);
    }
  }

  type Meaning = (string, Option<string>, Command) -> bool

  /** Each command stands for the input at its place. */
  ghost predicate Carried(means: Meaning, inputs: seq<string>, replies: seq<Option<string>>, commands: seq<Command>) {
    && |commands| <= |inputs| == |replies|
    && forall i :: 0 <= i < |commands| ==> means(inputs[i], replies[i], commands[i])
  }

  lemma CarriedMore(means: Meaning, inputs: seq<string>, replies: seq<Option<string>>,
                    commands: seq<Command>, c: Command)
    requires Carried(means, inputs, replies, commands) && |commands| < |inputs|
    requires means(inputs[|commands|], replies[|commands|], c)
    ensures Carried(means, inputs, replies, commands + [c])
  {
  }

  class Manager {
    const store: SyncInfoStore
    const pool: PoolHandle
    var started: seq<Endpoint>
    var nextId: nat
    var shutdownRequested: bool
    ghost var Repr: set<object>

    ghost predicate Valid()
      reads this`Repr, store, store.nodes
    {
      && store.Valid()
      && this in Repr && pool in Repr && store in Repr && forall n :: n in store.nodes ==> n in Repr
    }

    ghost function State(): Books
      reads this`started, this`nextId, store, store.nodes, pool
    {
      Books(store.Entries(), started, pool.accepted, nextId)
    }

    constructor ()
      ensures Valid() && State() == Books([], [], [], 0) && !shutdownRequested && !pool.closed
      ensures fresh(Repr)
    {
      store := new SyncInfoStore();
      pool := new PoolHandle();
      started, nextId, shutdownRequested := [], 0, false;
      Repr := {this, store, pool};
    }

    /** One line of the listing: a job is created and offered to the pool; a job the pool
        refuses is freed. */
    method EnqueueLine(info: SyncInfo, line: string, ghost base: seq<Job>, ghost jobs: seq<Job>,
                       ghost i: nat, ghost taken: nat)
      returns (ghost taken': nat)
      requires i < |jobs| && jobs[i] == CreateJob(nextId, info.source, info.target, line)
      requires taken <= i && (taken < i ==> pool.closed) && pool.accepted == base + jobs[..taken]
      modifies this`nextId, pool
      ensures nextId == old(nextId) + 1 && (old(pool.closed) ==> pool.closed && taken' == taken)
      ensures taken' <= i + 1 && (taken' < i + 1 ==> pool.closed) && pool.accepted == base + jobs[..taken']
    {
      var job := CreateJob(nextId, info.source, info.target, line);
      nextId := nextId + 1;
      taken' := taken;
      var rc := pool.Enqueue(job);
      if rc == 0 {
        TakeOneMore(base, jobs, i, job);
        taken' := i + 1;
      }
    }

    /** The `strtok` loop of `start_directory_sync`: one job a line, in order. */
    method EnqueueLines(info: SyncInfo, reply: string, ghost names: seq<string>, ghost jobs: seq<Job>)
      returns (ghost taken: nat)
      requires names == ParseListing(reply) && |jobs| == |names|
      requires forall i :: 0 <= i < |names| ==> jobs[i] == CreateJob(nextId + i, info.source, info.target, names[i])
      modifies this`nextId, pool
      ensures taken <= |names| && (taken < |names| ==> pool.closed) && (old(pool.closed) ==> pool.closed && taken == 0)
      ensures pool.accepted == old(pool.accepted) + jobs[..taken] && nextId == old(nextId) + |names|
    {
      taken := 0;
      var text := reply;
      ghost var i, base := 0, pool.accepted;
      assert base == base + jobs[..0];
      while true
        invariant i <= |names| && ParseListing(text) == names[i..] && nextId == old(nextId) + i
        invariant taken <= i && (taken < i ==> pool.closed)
        invariant old(pool.closed) ==> pool.closed && taken == 0
        invariant pool.accepted == base + jobs[..taken]
        decreases |text|
      {
        var next := NextLine(text);
        if AtEnd(next) {
          ListingEnds(names, i, text);
          break;
        }
        ListingAdvances(names, i, text, next.value.0, next.value.1);
        taken := EnqueueLine(info, next.value.0, base, jobs, i, taken);
        i := i + 1;
        text := next.value.1;
      }
    }

    /** All lines of a listing. `taken` counts the jobs accepted; it falls short of the names
        listed only if the pool has closed. */
    method EnqueueListing(info: SyncInfo, reply: string) returns (ghost taken: nat)
      modifies this`nextId, pool
      ensures var names := ParseListing(reply);
        && taken <= |names| && (taken < |names| ==> pool.closed) && (old(pool.closed) ==> pool.closed && taken == 0)
        && pool.accepted == old(pool.accepted)
           + JobsOf(old(nextId), Entry(info.source, info.target, true), names)[..taken]
        && nextId == old(nextId) + |names|
      ensures taken <= |ParseListing(reply)| && |old(pool.accepted)| <= |pool.accepted|
      ensures Fits(info.source) && Fits(info.target) ==>
        JobsFor(pool.accepted[|old(pool.accepted)|..], info.source, info.target, ParseListing(reply)[..taken])
    {
      ghost var names, entry, id := ParseListing(reply), Entry(info.source, info.target, true), nextId;
      taken := EnqueueLines(info, reply, names, JobsOf(nextId, entry, names));
      AcceptedFor(old(pool.accepted), id, entry, names, taken);
    }

    /** `start_directory_sync`; `reply` is what the one `recv` of the listing delivered, absent
        when the source could not be reached or the `recv` failed. A call whose `recv` does not
        return, as for a directory that cannot be opened, does not come to an end: that it can
        happen, and what follows, is stated in `FleetRuns`. */
    method StartDirectorySync(info: SyncInfo, reply: Option<string>) returns (rc: int, ghost taken: nat)
      modifies this`started, this`nextId, pool
      ensures started == old(started) + [info.source]
      ensures var entry := Entry(info.source, info.target, true); var names := NamesFor(entry, reply);
        && rc == (if CanList(entry, reply) then 0 else -1)
        && taken <= |names| && (taken < |names| ==> pool.closed)
        && pool.accepted == old(pool.accepted) + JobsOf(old(nextId), entry, names)[..taken]
        && nextId == old(nextId) + |names|
      ensures taken <= |NamesFor(Entry(info.source, info.target, true), reply)|
      ensures |old(pool.accepted)| <= |pool.accepted|
      ensures Fits(info.source) && Fits(info.target) ==>
        JobsFor(pool.accepted[|old(pool.accepted)|..], info.source, info.target,
                NamesFor(Entry(info.source, info.target, true), reply)[..taken])
      ensures old(pool.closed) ==> pool.closed && taken == 0
    {
      started := started + [info.source];
      taken := 0;
      if info.source.host == "" || info.source.dir == "" || info.target.host == "" || info.target.dir == "" {
        return -1, taken;
      }
      if reply.None? || reply.value == "" {
        return -1, taken;
      }
      taken := EnqueueListing(info, CString(reply.value));
      rc := 0;
    }

    /** The same in terms of the books: only the three lists it writes change. */
    method StartPair(info: SyncInfo, reply: Option<string>) returns (rc: int, ghost taken: nat)
      requires Valid()
      modifies this`started, this`nextId, pool
      ensures Valid()
      ensures var entry := Entry(info.source, info.target, true); var names := NamesFor(entry, reply);
        && State() == Started(old(State()), entry, names, taken)
        && rc == (if CanList(entry, reply) then 0 else -1)
        && taken <= |names| && (taken < |names| ==> pool.closed)
      ensures old(pool.closed) ==> pool.closed && taken == 0
    {
      ghost var books, entry := State(), Entry(info.source, info.target, true);
      rc, taken := StartDirectorySync(info, reply);
      StartedBy(books, entry, NamesFor(entry, reply), taken);
    }

    /** The first half of `handle_add_command` behind the parsers: look the key up, and if it
        is new put a fresh entry at the head of the store. */
    method Register(source: Endpoint, target: Endpoint) returns (rc: int, info: SyncInfo?)
      requires Valid() && CopyEndpoint(source) == source && CopyEndpoint(target) == target
      modifies this`Repr, store
      ensures Valid()
      ensures IndexOf(old(store.Entries()), source).Some? ==> rc == 1 && info == null
      ensures IndexOf(old(store.Entries()), source).None? ==>
        rc == 0 && info != null && info.source == source && info.target == target
      ensures State() == if rc == 1 then old(State())
                         else old(State()).(entries := [Entry(source, target, true)] + old(State()).entries)
      ensures fresh(Repr - old(Repr))
    {
      info := null;
      ghost var before := store.Entries();
      var known := store.Find(source);
      assert store.Entries() == before;
      if known != null {
        return 1, info;
      }
      info := Insert(source, target);
      rc := 0;
    }

    /** A fresh entry for a key that is not in the store. */
    method Insert(source: Endpoint, target: Endpoint) returns (info: SyncInfo)
      requires Valid() && CopyEndpoint(source) == source && CopyEndpoint(target) == target
      requires IndexOf(store.Entries(), source).None?
      modifies this`Repr, store
      ensures Valid() && info.source == source && info.target == target
      ensures State() == old(State()).(entries := [Entry(source, target, true)] + old(State()).entries)
      ensures fresh(Repr - old(Repr))
    {
      ghost var before := store.Entries();
      info := new SyncInfo(source, target);
      Repr := Repr + {info};
      assert store.Entries() == before;
      var rc := store.Add(info);
      assert store.Entries() == [Entry(source, target, true)] + before;
    }

    /** `handle_add_command` behind the two parsers. */
    method AddPair(source: Endpoint, target: Endpoint, reply: Option<string>) returns (rc: int, ghost taken: nat)
      requires Valid() && CopyEndpoint(source) == source && CopyEndpoint(target) == target
      modifies this`started, this`nextId, this`Repr, pool, store
      ensures Valid()
      ensures var entry := Entry(source, target, true);
        && State() == Adding(old(State()), entry, NamesFor(entry, reply), taken)
        && rc == AddingResult(old(State()), entry, reply)
        && taken <= Offered(old(State()), entry, reply)
        && (taken < Offered(old(State()), entry, reply) ==> pool.closed)
      ensures fresh(Repr - old(Repr))
      ensures old(pool.closed) ==> pool.closed && taken == 0
    {
      taken := 0;
      var info;
      rc, info := Register(source, target);
      if info != null {
        rc, taken := StartPair(info, reply);
      }
    }

    /** `handle_add_command`. */
    method HandleAdd(sourceSpec: string, targetSpec: string, reply: Option<string>) returns (rc: int, ghost taken: nat)
      requires Valid()
      modifies this`started, this`nextId, this`Repr, pool, store
      ensures Valid()
      ensures State() == Apply(old(State()), Add(sourceSpec, targetSpec, reply, taken))
      ensures rc == AddResult(old(State()), sourceSpec, targetSpec, reply)
      ensures var pair := ParsePair(sourceSpec, targetSpec);
        if pair.None? then taken == 0
        else taken <= Offered(old(State()), pair.value, reply)
             && (taken < Offered(old(State()), pair.value, reply) ==> pool.closed)
      ensures fresh(Repr - old(Repr))
      ensures old(pool.closed) ==> pool.closed && taken == 0
    {
      taken := 0;
      var source := Parse(sourceSpec);
      if source.None? {
        return -1, taken;
      }
      var target := Parse(targetSpec);
      if target.None? {
        return -1, taken;
      }
      ParsedIsCopiedExactly(sourceSpec, source.value);
      ParsedIsCopiedExactly(targetSpec, target.value);
      rc, taken := AddPair(source.value, target.value, reply);
    }

    /** `handle_cancel_command` behind the parser. */
    method CancelPair(key: Endpoint) returns (rc: int)
      requires Valid()
      modifies store.nodes`active
      ensures Valid()
      ensures State() == Cancelling(old(State()), key)
      ensures rc == if IndexOf(old(State()).entries, key).Some? then 0 else 1
    {
      var found := store.Deactivate(key);
      if found == 0 {
        rc := 0;
      } else {
        rc := 1;
      }
    }

    /** `handle_cancel_command`. */
    method HandleCancel(sourceSpec: string) returns (rc: int)
      requires Valid()
      modifies store.nodes`active
      ensures Valid()
      ensures State() == Apply(old(State()), Cancel(sourceSpec))
      ensures rc == CancelResult(old(State()), sourceSpec)
    {
      var source := Parse(sourceSpec);
      if source.None? {
        return -1;
      }
      rc := CancelPair(source.value);
    }

    /** `handle_shutdown_command`. */
    method HandleShutdown()
      requires Valid()
      modifies this`shutdownRequested, pool
      ensures Valid() && State() == old(State())
      ensures shutdownRequested && pool.closed
    {
      shutdownRequested := true;
      pool.SignalShutdown();
    }

    /** One line of the configuration file. */
    method LoadLine(line: string, reply: Option<string>) returns (ghost c: Command)
      requires Valid()
      modifies this`started, this`nextId, this`Repr, pool, store
      ensures Valid() && fresh(Repr - old(Repr))
      ensures LineMeans(line, reply, c) && Did(old(State()), old(pool.closed), c, State(), pool.closed)
    {
      ghost var before, wasClosed := State(), pool.closed;
      c := Other;
      DidNothing(before, wasClosed, wasClosed);
      if line == "" || line[0] == '\n' || line[0] == '#' {
        return;
      }
      var words := ScanTwo(line);
      if words.None? {
        return;
      }
      var rc;
      ghost var taken;
      rc, taken := HandleAdd(words.value.0, words.value.1, reply);
      c := Add(words.value.0, words.value.1, reply, taken);
      DidAdd(before, wasClosed, c, pool.closed);
    }

    /** `load_config_file` on the lines `fgets` delivers. Every job the lines make is accepted,
        in order, unless the pool has closed; a pool that was closed accepts none. */
    method LoadConfig(lines: seq<string>, replies: seq<Option<string>>) returns (ghost commands: seq<Command>)
      requires Valid() && |replies| == |lines|
      modifies this`started, this`nextId, this`Repr, pool, store
      ensures Valid() && |commands| == |lines| && Carried(LineMeans, lines, replies, commands)
      ensures Ran(old(State()), old(pool.closed), commands, State(), pool.closed)
      ensures !pool.closed ==> State() == Run(old(State()), AllTaken(commands))
      ensures Consistent(old(State())) ==> Consistent(State())
    {
      ghost var start, wasClosed := State(), pool.closed;
      commands := [];
      RanNothing(start, wasClosed);
      for i := 0 to |lines|
        invariant Valid() && |commands| == i
        invariant Carried(LineMeans, lines, replies, commands)
        invariant Ran(start, wasClosed, commands, State(), pool.closed)
      {
        ghost var now, closed := State(), pool.closed;
        ghost var c := LoadLine(lines[i], replies[i]);
        CarriedMore(LineMeans, lines, replies, commands, c);
        RanMore(start, wasClosed, commands, now, closed, c, State(), pool.closed);
        commands := commands + [c];
      }
      RanToTheEnd(start, wasClosed, commands, State(), pool.closed);
    }

    /** An "add" as it is dispatched. */
    method DispatchAdd(source: string, target: string, reply: Option<string>) returns (ghost c: Command)
      requires Valid()
      modifies this`started, this`nextId, this`Repr, pool, store
      ensures Valid() && fresh(Repr - old(Repr))
      ensures c.Add? && c == Add(source, target, reply, c.taken)
      ensures Did(old(State()), old(pool.closed), c, State(), pool.closed)
    {
      ghost var before, wasClosed := State(), pool.closed;
      var rc;
      ghost var taken;
      rc, taken := HandleAdd(source, target, reply);
      c := Add(source, target, reply, taken);
      DidAdd(before, wasClosed, c, pool.closed);
    }

    /** A "cancel" as it is dispatched. */
    method DispatchCancel(source: string) returns (ghost c: Command)
      requires Valid()
      modifies store.nodes`active
      ensures Valid()
      ensures c == Cancel(source) && Did(old(State()), pool.closed, c, State(), pool.closed)
    {
      ghost var before := State();
      var rc := HandleCancel(source);
      c := Cancel(source);
      DidCancel(before, pool.closed, source);
    }

    /** The command dispatch of `handle_console_connection`. */
    method Dispatch(message: Message, reply: Option<string>) returns (ghost c: Command)
      requires Valid()
      modifies Repr
      ensures Valid() && fresh(Repr - old(Repr))
      ensures StandsFor(message, reply, c) && Did(old(State()), old(pool.closed), c, State(), pool.closed)
      ensures shutdownRequested <==> old(shutdownRequested) || message == ShutdownMessage
      ensures shutdownRequested && !old(shutdownRequested) ==> pool.closed
    {
      ghost var before, wasClosed := State(), pool.closed;
      c := Other;
      match message
      case AddMessage(source, target) => c := DispatchAdd(source, target, reply);
      case CancelMessage(source) => c := DispatchCancel(source);
      case ShutdownMessage =>
        HandleShutdown();
        DidNothing(before, wasClosed, true);
      case BadMessage =>
        DidNothing(before, wasClosed, wasClosed);
    }

    /** The first messages have been carried out, as `commands`. */
    ghost predicate CarriedOut(messages: seq<string>, replies: seq<Option<string>>,
                               start: Books, wasClosed: bool, commands: seq<Command>)
      reads this, store, store.nodes, pool
    {
      && Valid() && Carried(MessageMeans, messages, replies, commands)
      && Ran(start, wasClosed, commands, State(), pool.closed)
    }

    /** One message of the console, after those carried out since the books were `start`. */
    method HandleMessage(messages: seq<string>, replies: seq<Option<string>>, i: nat,
                         ghost start: Books, ghost wasClosed: bool, ghost commands: seq<Command>)
      returns (ghost commands': seq<Command>)
      requires CarriedOut(messages, replies, start, wasClosed, commands) && |commands| == i < |messages|
      requires !shutdownRequested && StopsAt(IsShutdown, messages, i, false)
      modifies Repr
      ensures CarriedOut(messages, replies, start, wasClosed, commands') && |commands'| == i + 1
      ensures fresh(Repr - old(Repr))
      ensures StopsAt(IsShutdown, messages, i + 1, shutdownRequested) && (shutdownRequested ==> pool.closed)
    {
      ghost var now, closed := State(), pool.closed;
      ghost var c := Dispatch(ParseMessage(messages[i]), replies[i]);
      CarriedMore(MessageMeans, messages, replies, commands, c);
      RanMore(start, wasClosed, commands, now, closed, c, State(), pool.closed);
      StopsMore(IsShutdown, messages, i, shutdownRequested);
      commands' := commands + [c];
    }

    /** The command loop: it carries the messages out in order up to and including the first
        shutdown. */
    method ServeMessages(messages: seq<string>, replies: seq<Option<string>>, ghost start: Books, ghost wasClosed: bool)
      returns (ghost commands: seq<Command>)
      requires Valid() && |replies| == |messages| && start == State() && wasClosed == pool.closed
      modifies Repr
      ensures CarriedOut(messages, replies, start, wasClosed, commands)
      ensures shutdownRequested || |commands| == |messages|
      ensures if old(shutdownRequested) then commands == []
              else StopsAt(IsShutdown, messages, |commands|, shutdownRequested)
      ensures !old(shutdownRequested) && shutdownRequested ==> pool.closed
    {
      commands := [];
      var i := 0;
      RanNothing(start, wasClosed);
      while !shutdownRequested && i < |messages|
        invariant |commands| == i <= |messages| && CarriedOut(messages, replies, start, wasClosed, commands)
        invariant fresh(Repr - old(Repr))
        invariant if old(shutdownRequested) then i == 0 && shutdownRequested
                  else StopsAt(IsShutdown, messages, i, shutdownRequested)
        invariant !old(shutdownRequested) && shutdownRequested ==> pool.closed
      {
        commands := HandleMessage(messages, replies, i, start, wasClosed, commands);
        i := i + 1;
      }
    }

    /** `handle_console_connection` on the messages received. */
    method HandleConsole(messages: seq<string>, replies: seq<Option<string>>) returns (ghost commands: seq<Command>)
      requires Valid() && |replies| == |messages|
      modifies Repr
      ensures Valid() && Carried(MessageMeans, messages, replies, commands)
      ensures Ran(old(State()), old(pool.closed), commands, State(), pool.closed)
      ensures !pool.closed ==> State() == Run(old(State()), AllTaken(commands))
      ensures Consistent(old(State())) ==> Consistent(State())
      ensures shutdownRequested || |commands| == |messages|
      ensures if old(shutdownRequested) then commands == []
              else StopsAt(IsShutdown, messages, |commands|, shutdownRequested)
      ensures !old(shutdownRequested) ==> (shutdownRequested <==> SomeCalls(IsShutdown, messages))
      ensures !old(shutdownRequested) && shutdownRequested ==> pool.closed
    {
      ghost var start, wasClosed := State(), pool.closed;
      commands := ServeMessages(messages, replies, start, wasClosed);
      if !old(shutdownRequested) {
        StopsIff(IsShutdown, messages, |commands|, shutdownRequested);
      }
      RanToTheEnd(start, wasClosed, commands, State(), pool.closed);
    }
  }

  /** The command a configuration line stands for. */
  ghost predicate LineMeans(line: string, reply: Option<string>, c: Command) {
    if line == "" || line[0] == '\n' || line[0] == '#' || ScanTwo(line).None? then c == Other
    else c.Add? && c == Add(ScanTwo(line).value.0, ScanTwo(line).value.1, reply, c.taken)
  }

  /** The command a console message stands for. */
  ghost predicate StandsFor(message: Message, reply: Option<string>, c: Command) {
    match message
    case AddMessage(source, target) => c.Add? && c == Add(source, target, reply, c.taken)
    case CancelMessage(source) => c == Cancel(source)
    case _ => c == Other
  }

  ghost predicate MessageMeans(received: string, reply: Option<string>, c: Command) {
    StandsFor(ParseMessage(received), reply, c)
  }
}
