/** What the store of synchronisation pairs means: a list of entries with the newest first, and
    the finite map it stands for. */
module SyncEntries {
  import opened Options
  import opened DirectorySpec

  /** A stored pair; the source endpoint is the key. */
  datatype Entry = Entry(source: Endpoint, target: Endpoint, active: bool)

  datatype Op = AddOp(entry: Entry) | FindOp(key: Endpoint) | RemoveOp(key: Endpoint) | DeactivateOp(key: Endpoint)

  datatype Answer = Code(rc: int) | Found(entry: Option<Entry>)

  function IndexOf(es: seq<Entry>, key: Endpoint): (r: Option<nat>)
    ensures r.None? <==> forall i :: 0 <= i < |es| ==> es[i].source != key
    ensures r.Some? ==> r.value < |es| && es[r.value].source == key
    ensures r.Some? ==> forall i :: 0 <= i < r.value ==> es[i].source != key
  {
    if es == [] then None
    else if es[0].source == key then Some(0)
    else
      match IndexOf(es[1..], key)
      case None => None
      case Some(i) => Some(i + 1)
  }

  lemma {:induction false} SameIndex(a: seq<Entry>, b: seq<Entry>, key: Endpoint)
    requires |a| == |b| && forall i :: 0 <= i < |a| ==> a[i].source == b[i].source
    ensures IndexOf(a, key) == IndexOf(b, key)
  {
    if a != [] {
      SameIndex(a[1..], b[1..], key);
    }
  }

  /** A new first entry moves the others on by one. */
  lemma IndexOfCons(e: Entry, es: seq<Entry>, key: Endpoint)
    ensures IndexOf([e] + es, key) == if e.source == key then Some(0)
      else if IndexOf(es, key).Some? then Some(IndexOf(es, key).value + 1) else None
  {
    assert ([e] + es)[1..] == es;
  }

  /** One operation on the list, as `src/sync_info.c` performs it. */
  function OnList(es: seq<Entry>, op: Op): (seq<Entry>, Answer) {
    match op
    case AddOp(entry) =>
      if IndexOf(es, entry.source).Some? then (es, Code(1)) else ([entry] + es, Code(0))
    case FindOp(key) =>
      (match IndexOf(es, key)
       case None => (es, Found(None))
       case Some(i) => (es, Found(Some(es[i]))))
    case RemoveOp(key) =>
      (match IndexOf(es, key)
       case None => (es, Code(1))
       case Some(i) => (es[..i] + es[i + 1..], Code(0)))
    case DeactivateOp(key) =>
      (match IndexOf(es, key)
       case None => (es, Code(1))
       case Some(i) => (es[i := es[i].(active := false)], Code(0)))
  }

  /** The same operation on a finite map. */
  function OnMap(m: map<Endpoint, Entry>, op: Op): (map<Endpoint, Entry>, Answer) {
    match op
    case AddOp(entry) =>
      if entry.source in m then (m, Code(1)) else (m[entry.source := entry], Code(0))
    case FindOp(key) => (m, Found(if key in m then Some(m[key]) else None))
    case RemoveOp(key) => if key in m then (m - {key}, Code(0)) else (m, Code(1))
    case DeactivateOp(key) =>
      if key in m then (m[key := m[key].(active := false)], Code(0)) else (m, Code(1))
  }

  ghost predicate Distinct(es: seq<Entry>) {
    forall i, j :: 0 <= i < j < |es| ==> es[i].source != es[j].source
  }

  /** The map a list stands for. */
  function ToMap(es: seq<Entry>): map<Endpoint, Entry> {
    if es == [] then map[] else ToMap(es[1..])[es[0].source := es[0]]
  }

  /** The list search and the map agree. */
  lemma {:induction false} ToMapAt(es: seq<Entry>, key: Endpoint)
    ensures key in ToMap(es) <==> IndexOf(es, key).Some?
    ensures key in ToMap(es) ==> ToMap(es)[key] == es[IndexOf(es, key).value]
  {
    if es != [] {
      ToMapAt(es[1..], key);
    }
  }

  lemma TailDistinct(es: seq<Entry>)
    requires Distinct(es) && es != []
    ensures Distinct(es[1..]) && es[0].source !in ToMap(es[1..])
  {
    assert forall i :: 0 <= i < |es[1..]| ==> es[1..][i] == es[i + 1];
    ToMapAt(es[1..], es[0].source);
  }

  lemma AddDistinct(es: seq<Entry>, entry: Entry)
    requires Distinct(es) && IndexOf(es, entry.source).None?
    ensures Distinct([entry] + es)
  {
  }

  lemma RemoveDistinct(es: seq<Entry>, i: nat)
    requires Distinct(es) && i < |es|
    ensures Distinct(es[..i] + es[i + 1..])
  {
    var es' := es[..i] + es[i + 1..];
    assert forall k :: 0 <= k < |es'| ==> es'[k] == es[if k < i then k else k + 1];
  }

  lemma ToMapOfCons(e: Entry, rest: seq<Entry>)
    ensures ToMap([e] + rest) == ToMap(rest)[e.source := e]
  {
    assert ([e] + rest)[1..] == rest;
  }

  lemma {:induction false} RemoveRefines(es: seq<Entry>, i: nat)
    requires Distinct(es) && i < |es|
    ensures ToMap(es[..i] + es[i + 1..]) == ToMap(es) - {es[i].source}
  {
    TailDistinct(es);
    var e, rest, key := es[0], es[1..], es[i].source;
    if i == 0 {
      assert es[..0] + es[1..] == rest;
    } else {
      assert es[..i] + es[i + 1..] == [e] + (rest[..i - 1] + rest[i..]);
      ToMapOfCons(e, rest[..i - 1] + rest[i..]);
      RemoveRefines(rest, i - 1);
      assert e.source != key;
      assert ToMap(rest)[e.source := e] - {key} == (ToMap(rest) - {key})[e.source := e];
    }
  }

  lemma DeactivateDistinct(es: seq<Entry>, i: nat)
    requires Distinct(es) && i < |es|
    ensures Distinct(es[i := es[i].(active := false)])
  {
  }

  lemma {:induction false} DeactivateRefines(es: seq<Entry>, i: nat)
    requires Distinct(es) && i < |es|
    ensures ToMap(es[i := es[i].(active := false)]) == ToMap(es)[es[i].source := es[i].(active := false)]
  {
    TailDistinct(es);
    var e, rest, off := es[0], es[1..], es[i].(active := false);
    if i == 0 {
      assert es[0 := off] == [off] + rest;
      ToMapOfCons(off, rest);
    } else {
      assert es[i := off] == [e] + rest[i - 1 := off];
      ToMapOfCons(e, rest[i - 1 := off]);
      DeactivateRefines(rest, i - 1);
      assert e.source != off.source;
      assert ToMap(rest)[e.source := e][off.source := off] == ToMap(rest)[off.source := off][e.source := e];
    }
  }

  /** Clearing a flag, entry by entry. */
  lemma DeactivateMeans(es: seq<Entry>, key: Endpoint)
    requires Distinct(es)
    ensures var es' := OnList(es, DeactivateOp(key)).0;
      && |es'| == |es|
      && forall k :: 0 <= k < |es| ==>
           es'[k] == if es[k].source == key then es[k].(active := false) else es[k]
    ensures IndexOf(es, key).Some? <==> exists k :: 0 <= k < |es| && es[k].source == key
  {
    if IndexOf(es, key).Some? {
      var i := IndexOf(es, key).value;
      assert forall k :: 0 <= k < |es| && k != i ==> es[k].source != key;
    }
  }

  /** One operation on the list is the operation on the map, with the same answer. */
  lemma {:induction false} OpRefines(es: seq<Entry>, op: Op)
    requires Distinct(es)
    ensures Distinct(OnList(es, op).0)
    ensures (ToMap(OnList(es, op).0), OnList(es, op).1) == OnMap(ToMap(es), op)
  {
    match op
    case AddOp(entry) =>
      ToMapAt(es, entry.source);
      ToMapOfCons(entry, es);
      if IndexOf(es, entry.source).None? { AddDistinct(es, entry); }
    case FindOp(key) => ToMapAt(es, key);
    case RemoveOp(key) =>
      ToMapAt(es, key);
      if IndexOf(es, key).Some? {
        RemoveDistinct(es, IndexOf(es, key).value);
        RemoveRefines(es, IndexOf(es, key).value);
      }
    case DeactivateOp(key) =>
      ToMapAt(es, key);
      if IndexOf(es, key).Some? {
        DeactivateDistinct(es, IndexOf(es, key).value);
        DeactivateRefines(es, IndexOf(es, key).value);
      }
  }

  function RunList(es: seq<Entry>, ops: seq<Op>): (seq<Entry>, seq<Answer>)
    decreases |ops|
  {
    if ops == [] then (es, [])
    else
      var (next, answer) := OnList(es, ops[0]);
      var (last, answers) := RunList(next, ops[1..]);
      (last, [answer] + answers)
  }

  function RunMap(m: map<Endpoint, Entry>, ops: seq<Op>): (map<Endpoint, Entry>, seq<Answer>)
    decreases |ops|
  {
    if ops == [] then (m, [])
    else
      var (next, answer) := OnMap(m, ops[0]);
      var (last, answers) := RunMap(next, ops[1..]);
      (last, [answer] + answers)
  }

  /** Every sequence of operations gives the answers a finite map gives. */
  lemma {:induction false} RunRefines(es: seq<Entry>, ops: seq<Op>)
    requires Distinct(es)
    ensures Distinct(RunList(es, ops).0)
    ensures RunList(es, ops).1 == RunMap(ToMap(es), ops).1
    ensures ToMap(RunList(es, ops).0) == RunMap(ToMap(es), ops).0
    decreases |ops|
  {
    if ops != [] {
      OpRefines(es, ops[0]);
      RunRefines(OnList(es, ops[0]).0, ops[1..]);
    }
  }

  function Without(es: seq<Entry>, key: Endpoint): seq<Entry> {
    if es == [] then []
    else (if es[0].source == key then [] else [es[0]]) + Without(es[1..], key)
  }

  lemma RemovedAt(es: seq<Entry>, es': seq<Entry>, key: Endpoint, i: nat)
    requires IndexOf(es, key) == Some(i) && |es'| == |es| - 1
    requires forall k :: 0 <= k < |es'| ==> es'[k] == es[if k < i then k else k + 1]
    ensures (es', Code(0)) == OnList(es, RemoveOp(key))
  {
    assert es' == es[..i] + es[i + 1..];
  }

  lemma RemoveFirst(es: seq<Entry>, key: Endpoint)
    requires Distinct(es) && es != [] && es[0].source == key
    ensures OnList(es, RemoveOp(key)).0 == es[1..] && IndexOf(es[1..], key) == None
  {
    assert forall i :: 0 <= i < |es| - 1 ==> es[1..][i] == es[i + 1];
    assert es[..0] + es[1..] == es[1..];
  }

  lemma RemoveLater(es: seq<Entry>, key: Endpoint)
    requires es != [] && es[0].source != key
    ensures OnList(es, RemoveOp(key)).0 == [es[0]] + OnList(es[1..], RemoveOp(key)).0
  {
    var rest := es[1..];
    if IndexOf(rest, key).Some? {
      var i := IndexOf(rest, key).value;
      assert es[..i + 1] + es[i + 2..] == [es[0]] + (rest[..i] + rest[i + 1..]);
    } else {
      assert es == [es[0]] + rest;
    }
  }

  /** Removal at the head, in the middle or at the tail keeps the others in their order. */
  lemma {:induction false} RemoveKeepsOrder(es: seq<Entry>, key: Endpoint)
    requires Distinct(es)
    ensures OnList(es, RemoveOp(key)).0 == Without(es, key)
  {
    if es != [] {
      var rest := es[1..];
      RemoveKeepsOrder(rest, key);
      if es[0].source == key {
        RemoveFirst(es, key);
      } else {
        RemoveLater(es, key);
      }
    }
  }
}
