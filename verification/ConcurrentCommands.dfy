/** Any number of add and cancel commands carried out at once. Looking a key up, adding an
    entry and clearing a flag are separate critical sections of the store
    (`src/nfs_manager_logic.c:281-310`, `src/sync_info.c:87-108`, `src/sync_info.c:175-182`),
    so other commands may come between them. */
module ConcurrentCommands {
  import opened Options
  import opened DirectorySpec
  import opened SyncEntries
  import opened ManagerRuns

  datatype Caller =
    | Adder(pc: AdderPc, entry: Entry)
    | Canceller(xpc: CancelPc, key: Endpoint)

  datatype AdderPc =
    | AFind | AAdd | AStart
    | AStarted // returned after start_directory_sync
    | AKnown   // returned 1: the key was found
    | ALost    // returned -1: another caller added the key in between; the entry was freed

  datatype CancelPc = XFind | XClear | XDone

  /** `winner` and `started` record who added a key and which listings were requested. */
  datatype State = State(es: seq<Entry>, callers: seq<Caller>, winner: map<Endpoint, nat>, started: seq<Endpoint>)

  ghost predicate Init(s: State) {
    && Distinct(s.es) && s.winner == map[] && s.started == []
    && forall t :: 0 <= t < |s.callers| ==>
         match s.callers[t]
         case Adder(pc, entry) => pc == AFind && entry.active
         case Canceller(pc, _) => pc == XFind
  }

  predicate Stored(es: seq<Entry>, key: Endpoint) { IndexOf(es, key).Some? }

  predicate Enabled(s: State, t: nat) {
    t < |s.callers| &&
    match s.callers[t]
    case Adder(pc, _) => pc.AFind? || pc.AAdd? || pc.AStart?
    case Canceller(pc, _) => !pc.XDone?
  }

  /** `add_sync_info` when the key is new. */
  function Added(s: State, t: nat, entry: Entry): State
    requires t < |s.callers|
  {
    s.(es := [entry] + s.es, winner := s.winner[entry.source := t],
       callers := s.callers[t := Adder(AStart, entry)])
  }

  function Next(s: State, t: nat): State
    requires Enabled(s, t)
  {
    match s.callers[t]
    case Adder(pc, entry) =>
      (match pc
       case AFind =>
         s.(callers := s.callers[t := Adder(if Stored(s.es, entry.source) then AKnown else AAdd, entry)])
       case AAdd =>
         if !Stored(s.es, entry.source) then Added(s, t, entry)
         else s.(callers := s.callers[t := Adder(ALost, entry)])
       case _ => s.(started := s.started + [entry.source], callers := s.callers[t := Adder(AStarted, entry)]))
    case Canceller(pc, key) =>
      if pc == XFind then s.(callers := s.callers[t := Canceller(if Stored(s.es, key) then XClear else XDone, key)])
      else s.(es := OnList(s.es, DeactivateOp(key)).0, callers := s.callers[t := Canceller(XDone, key)])
  }

  ghost predicate Reaches(from: State, trace: seq<nat>, s: State)
    decreases |trace|
  {
    if trace == [] then s == from
    else Enabled(from, trace[0]) && Reaches(Next(from, trace[0]), trace[1..], s)
  }

  predicate Won(c: Caller) { c.Adder? && (c.pc.AStart? || c.pc.AStarted?) }

  /** The entry under a won key is the winner's, but for the flag. */
  ghost predicate WinnerOk(s: State, key: Endpoint) {
    && key in s.winner && s.winner[key] < |s.callers| && Won(s.callers[s.winner[key]])
    && s.callers[s.winner[key]].entry.source == key
    && Stored(s.es, key)
    && s.es[IndexOf(s.es, key).value].target == s.callers[s.winner[key]].entry.target
  }

  ghost predicate CallerOk(s: State, t: nat)
    requires t < |s.callers|
  {
    match s.callers[t]
    case Adder(pc, entry) =>
      && entry.active
      && (Won(s.callers[t]) ==> entry.source in s.winner && s.winner[entry.source] == t)
      && (pc.AKnown? || pc.ALost? ==> Stored(s.es, entry.source))
      && (entry.source in s.started && Won(s.callers[t]) ==> pc.AStarted?)
      && (pc.AStarted? ==> entry.source in s.started)
    case Canceller(pc, key) => pc.XClear? ==> Stored(s.es, key)
  }

  ghost predicate StartsOk(s: State) {
    && NoRepeats(s.started)
    && forall i :: 0 <= i < |s.started| ==> s.started[i] in s.winner
  }

  ghost predicate Good(s: State, initial: seq<Entry>) {
    && Distinct(s.es) && StartsOk(s)
    && (forall key :: Stored(s.es, key) <==> Stored(initial, key) || key in s.winner)
    && (forall key :: key in s.winner ==> !Stored(initial, key) && WinnerOk(s, key))
    && (forall t :: 0 <= t < |s.callers| ==> CallerOk(s, t))
  }

  lemma StoredAfterAdd(es: seq<Entry>, entry: Entry, key: Endpoint)
    ensures Stored([entry] + es, key) <==> key == entry.source || Stored(es, key)
    ensures key != entry.source && Stored(es, key) ==>
      ([entry] + es)[IndexOf([entry] + es, key).value] == es[IndexOf(es, key).value]
    ensures key == entry.source ==> IndexOf([entry] + es, key) == Some(0)
  {
    assert ([entry] + es)[1..] == es;
  }

  lemma {:induction false} StoredAfterDeactivate(es: seq<Entry>, cleared: Endpoint, key: Endpoint)
    ensures var es' := OnList(es, DeactivateOp(cleared)).0;
      && IndexOf(es', key) == IndexOf(es, key)
      && (Stored(es, key) ==> es'[IndexOf(es, key).value].target == es[IndexOf(es, key).value].target)
  {
    var es' := OnList(es, DeactivateOp(cleared)).0;
    SameIndex(es', es, key);
  }

  lemma AddKeepsOthers(s: State, t: nat, entry: Entry, u: nat)
    requires t < |s.callers| && s.callers[t] == Adder(AAdd, entry) && u < |s.callers| && CallerOk(s, u)
    requires CallerOk(s, t) && entry.source !in s.winner && entry.source !in s.started
    ensures CallerOk(Added(s, t, entry), u)
  {
    if s.callers[u].Adder? {
      StoredAfterAdd(s.es, entry, s.callers[u].entry.source);
    } else {
      StoredAfterAdd(s.es, entry, s.callers[u].key);
    }
  }

  lemma AddKeepsWinners(s: State, t: nat, entry: Entry, key: Endpoint)
    requires t < |s.callers| && s.callers[t] == Adder(AAdd, entry)
    requires key == entry.source || WinnerOk(s, key)
    ensures WinnerOk(Added(s, t, entry), key)
  {
    StoredAfterAdd(s.es, entry, key);
  }

  lemma AddStep(s: State, t: nat, initial: seq<Entry>)
    requires Good(s, initial) && t < |s.callers| && s.callers[t].Adder?
    requires s.callers[t].pc == AAdd && !Stored(s.es, s.callers[t].entry.source)
    ensures Good(Added(s, t, s.callers[t].entry), initial)
  {
    var entry := s.callers[t].entry;
    var s' := Added(s, t, entry);
    assert CallerOk(s, t);
    AddDistinct(s.es, entry);
    forall key
      ensures Stored(s'.es, key) <==> Stored(initial, key) || key in s'.winner
      ensures key in s'.winner ==> !Stored(initial, key) && WinnerOk(s', key)
    {
      StoredAfterAdd(s.es, entry, key);
      if key in s'.winner { AddKeepsWinners(s, t, entry, key); }
    }
    forall u | 0 <= u < |s'.callers|
      ensures CallerOk(s', u)
    {
      AddKeepsOthers(s, t, entry, u);
    }
  }

  lemma ClearStep(s: State, t: nat, initial: seq<Entry>)
    requires Good(s, initial) && Enabled(s, t) && s.callers[t].Canceller? && s.callers[t].xpc == XClear
    ensures Good(Next(s, t), initial)
  {
    var s', cleared := Next(s, t), s.callers[t].key;
    forall key
      ensures IndexOf(s'.es, key) == IndexOf(s.es, key)
      ensures key in s'.winner ==> WinnerOk(s', key)
    {
      StoredAfterDeactivate(s.es, cleared, key);
      if key in s.winner { assert WinnerOk(s, key); }
    }
    forall u | 0 <= u < |s'.callers|
      ensures CallerOk(s', u)
    {
      assert CallerOk(s, u);
    }
  }

  /** The remaining steps leave the store alone and move one caller on. */
  lemma LocalStep(s: State, t: nat, c: Caller, initial: seq<Entry>)
    requires Good(s, initial) && t < |s.callers| && SameTask(s.callers[t], c) && Won(c) == Won(s.callers[t])
    requires CallerOk(s.(callers := s.callers[t := c]), t)
    ensures Good(s.(callers := s.callers[t := c]), initial)
  {
    var s' := s.(callers := s.callers[t := c]);
    forall key | key in s'.winner
      ensures WinnerOk(s', key)
    {
      assert WinnerOk(s, key);
    }
    forall u | 0 <= u < |s'.callers|
      ensures CallerOk(s', u)
    {
      assert CallerOk(s, u);
    }
  }

  lemma StartStep(s: State, t: nat, entry: Entry, initial: seq<Entry>)
    requires Good(s, initial) && t < |s.callers| && s.callers[t] == Adder(AStart, entry)
    ensures Good(Next(s, t), initial)
  {
    var s' := Next(s, t);
    assert CallerOk(s, t);
    assert entry.source !in s.started;
    forall key | key in s'.winner
      ensures WinnerOk(s', key)
    {
      assert WinnerOk(s, key);
    }
    forall u | 0 <= u < |s'.callers|
      ensures CallerOk(s', u)
    {
      assert CallerOk(s, u);
    }
  }

  lemma GoodStep(s: State, t: nat, initial: seq<Entry>)
    requires Good(s, initial) && Enabled(s, t)
    ensures Good(Next(s, t), initial)
  {
    var c := s.callers[t];
    assert CallerOk(s, t);
    if c.Adder? && c.pc == AAdd && !Stored(s.es, c.entry.source) {
      AddStep(s, t, initial);
    } else if c.Adder? && c.pc == AStart {
      StartStep(s, t, c.entry, initial);
    } else if c.Canceller? && c.xpc == XClear {
      ClearStep(s, t, initial);
    } else {
      LocalStep(s, t, Next(s, t).callers[t], initial);
    }
  }

  lemma {:induction false} GoodReached(from: State, trace: seq<nat>, s: State, initial: seq<Entry>)
    requires Good(from, initial) && Reaches(from, trace, s)
    ensures Good(s, initial) && |s.callers| == |from.callers|
    ensures forall t :: 0 <= t < |s.callers| ==> SameTask(from.callers[t], s.callers[t])
    decreases |trace|
  {
    if trace != [] {
      GoodStep(from, trace[0], initial);
      GoodReached(Next(from, trace[0]), trace[1..], s, initial);
    }
  }

  predicate SameTask(c: Caller, c': Caller) {
    c.Adder? == c'.Adder? && (c.Adder? ==> c'.entry == c.entry) && (c.Canceller? ==> c'.key == c.key)
  }

  // ---------------------------------------------------------------- cancelled pairs

  predicate Inactive(es: seq<Entry>, key: Endpoint) {
    Stored(es, key) && !es[IndexOf(es, key).value].active
  }

  /** A caller that has finished cancelling a pair known from the start has lowered its flag, and
      it stays down. */
  ghost predicate FlagsDown(s: State, initial: seq<Entry>) {
    forall t :: 0 <= t < |s.callers| && HasCancelled(s.callers[t], initial) ==> Inactive(s.es, s.callers[t].key)
  }

  predicate HasCancelled(c: Caller, initial: seq<Entry>) {
    c.Canceller? && c.xpc == XDone && Stored(initial, c.key)
  }

  lemma InactiveAfterDeactivate(es: seq<Entry>, cleared: Endpoint, key: Endpoint)
    requires Distinct(es) && Stored(es, key) && (key == cleared || Inactive(es, key))
    ensures Inactive(OnList(es, DeactivateOp(cleared)).0, key)
  {
    StoredAfterDeactivate(es, cleared, key);
    DeactivateMeans(es, cleared);
  }

  lemma InactiveStep(s: State, t: nat, initial: seq<Entry>, key: Endpoint)
    requires Good(s, initial) && Enabled(s, t) && Inactive(s.es, key)
    ensures Inactive(Next(s, t).es, key)
  {
    match s.callers[t]
    case Adder(pc, entry) => StoredAfterAdd(s.es, entry, key);
    case Canceller(pc, cleared) => InactiveAfterDeactivate(s.es, cleared, key);
  }

  lemma FlagsDownStep(s: State, t: nat, initial: seq<Entry>)
    requires Good(s, initial) && Enabled(s, t) && FlagsDown(s, initial)
    ensures FlagsDown(Next(s, t), initial)
  {
    var s' := Next(s, t);
    forall u | 0 <= u < |s'.callers| && HasCancelled(s'.callers[u], initial)
      ensures Inactive(s'.es, s'.callers[u].key)
    {
      if u == t {
        InactiveAfterDeactivate(s.es, s.callers[t].key, s.callers[t].key);
      } else {
        InactiveStep(s, t, initial, s.callers[u].key);
      }
    }
  }

  lemma {:induction false} FlagsDownReached(from: State, trace: seq<nat>, s: State, initial: seq<Entry>)
    requires Good(from, initial) && FlagsDown(from, initial) && Reaches(from, trace, s)
    ensures FlagsDown(s, initial)
    decreases |trace|
  {
    if trace != [] {
      FlagsDownStep(from, trace[0], initial);
      GoodStep(from, trace[0], initial);
      FlagsDownReached(Next(from, trace[0]), trace[1..], s, initial);
    }
  }

  // ---------------------------------------------------------------- the theorems

  /** However commands are interleaved, a finished cancel of a stored pair has turned it off. */
  lemma {:induction false} CancelIsNotLost(from: State, trace: seq<nat>, s: State, t: nat)
    requires Init(from) && Reaches(from, trace, s)
    requires t < |s.callers| && s.callers[t].Canceller? && !Enabled(s, t) && Stored(from.es, s.callers[t].key)
    ensures Inactive(s.es, s.callers[t].key)
  {
    FlagsDownReached(from, trace, s, from.es);
  }

  /** Once all callers have finished, exactly the sources that were added have been listed. */
  lemma {:induction false} WinnersAreListed(from: State, trace: seq<nat>, s: State, key: Endpoint)
    requires Init(from) && Reaches(from, trace, s) && forall t :: 0 <= t < |s.callers| ==> !Enabled(s, t)
    ensures key in s.started <==> key in s.winner
  {
    GoodReached(from, trace, s, from.es);
    if key in s.winner {
      assert WinnerOk(s, key) && CallerOk(s, s.winner[key]);
      assert !Enabled(s, s.winner[key]);
    }
  }

  /** Under every interleaving each source is listed at most once, and of the callers that add
      the same new key exactly one puts its entry into the store; the entry of a caller that
      came too late is not the one stored. */
  lemma {:induction false} OneWinnerPerKey(from: State, trace: seq<nat>, s: State, t: nat)
    requires Init(from) && Reaches(from, trace, s)
    requires t < |s.callers| && s.callers[t].Adder? && !Enabled(s, t)
    requires !Stored(from.es, s.callers[t].entry.source)
    ensures NoRepeats(s.started)
    ensures var key := s.callers[t].entry.source;
      && WinnerOk(s, key)
      && (forall u :: 0 <= u < |s.callers| && Won(s.callers[u]) && s.callers[u].entry.source == key ==>
            u == s.winner[key])
      && (s.callers[t].pc == ALost || s.callers[t].pc == AKnown ==> t != s.winner[key])
  {
    GoodReached(from, trace, s, from.es);
    assert CallerOk(s, t);
    var key := s.callers[t].entry.source;
    assert Stored(s.es, key);
    forall u | 0 <= u < |s.callers| && Won(s.callers[u]) && s.callers[u].entry.source == key
      ensures u == s.winner[key]
    {
      assert CallerOk(s, u);
    }
  }

  /** A key that was already stored is never added or listed again. */
  lemma {:induction false} StoredKeyStays(from: State, trace: seq<nat>, s: State, key: Endpoint)
    requires Init(from) && Reaches(from, trace, s) && Stored(from.es, key)
    ensures key !in s.started && key !in s.winner && Stored(s.es, key) && Distinct(s.es)
  {
    GoodReached(from, trace, s, from.es);
  }
}
