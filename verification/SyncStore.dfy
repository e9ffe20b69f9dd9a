/** The store as a linked list changed in place (`src/sync_info.c`). Each operation runs under
    the store's mutex. */
module SyncStore {
  import opened Options
  import opened DirectorySpec
  import opened Jobs
  import opened SyncEntries

  class SyncInfo {
    const source: Endpoint
    const target: Endpoint
    var active: bool
    var next: SyncInfo?

    /** `create_sync_info`: text fields are cut to their arrays. */
    constructor (source: Endpoint, target: Endpoint)
      ensures this.source == CopyEndpoint(source) && this.target == CopyEndpoint(target)
      ensures active && next == null
    {
      this.source := CopyEndpoint(source);
      this.target := CopyEndpoint(target);
      active := true;
      next := null;
    }

    ghost function Value(): Entry
      reads this
    {
      Entry(source, target, active)
    }
  }

  class SyncInfoStore {
    var head: SyncInfo?
    var count: int
    ghost var nodes: seq<SyncInfo>

    ghost predicate Valid()
      reads this, nodes
    {
      && (forall i, j :: 0 <= i < j < |nodes| ==> nodes[i] != nodes[j] && nodes[i].source != nodes[j].source)
      && (forall i {:trigger nodes[i].next} :: 0 <= i < |nodes| - 1 ==> nodes[i].next == nodes[i + 1])
      && (nodes != [] ==> nodes[|nodes| - 1].next == null)
      && head == (if nodes == [] then null else nodes[0])
      && count == |nodes|
    }

    ghost function Entries(): (es: seq<Entry>)
      reads this, nodes
      ensures |es| == |nodes|
      ensures forall i :: 0 <= i < |nodes| ==> es[i] == nodes[i].Value()
    {
      seq(|nodes|, i requires 0 <= i < |nodes| reads this, nodes => nodes[i].Value())
    }

    constructor ()
      ensures Valid() && nodes == []
    {
      head, count, nodes := null, 0, [];
    }

    /** The traversal all operations share: the first node with the key, and the one before. */
    method Search(key: Endpoint) returns (prev: SyncInfo?, current: SyncInfo?, ghost i: nat)
      requires Valid()
      ensures current == null ==> IndexOf(Entries(), key).None?
      ensures current != null ==> IndexOf(Entries(), key) == Some(i)
      ensures current != null ==> i < |nodes| && nodes[i] == current
      ensures current != null ==> prev == if i > 0 then nodes[i - 1] else null
    {
      prev, current, i := null, head, 0;
      while current != null
        invariant i <= |nodes| && current == if i < |nodes| then nodes[i] else null
        invariant prev == if i > 0 then nodes[i - 1] else null
        invariant forall k :: 0 <= k < i ==> nodes[k].source != key
        decreases |nodes| - i
      {
        if current.source == key {
          assert Entries()[i].source == key;
          return;
        }
        prev, current, i := current, current.next, i + 1;
      }
      assert forall k :: 0 <= k < |nodes| ==> Entries()[k].source != key;
    }

    /** `add_sync_info`: an entry with the same key keeps its place and the new one stays out. */
    method Add(info: SyncInfo) returns (rc: int)
      requires Valid() && info !in nodes
      modifies this, info`next
      ensures Valid()
      ensures (Entries(), Code(rc)) == OnList(old(Entries()), AddOp(old(info.Value())))
      ensures nodes == if rc == 0 then [info] + old(nodes) else old(nodes)
    {
      var prev, current;
      ghost var i;
      prev, current, i := Search(info.source);
      if current != null {
        return 1;
      }
      Link(info);
      rc := 0;
    }

    /** The new node becomes the head. */
    method Link(info: SyncInfo)
      requires Valid() && info !in nodes && IndexOf(Entries(), info.source).None?
      modifies this, info`next
      ensures Valid() && nodes == [info] + old(nodes)
      ensures Entries() == [old(info.Value())] + old(Entries())
    {
      ghost var before := Entries();
      assert forall k :: 0 <= k < |nodes| ==> before[k].source == nodes[k].source;
      info.next := head;
      head := info;
      count := count + 1;
      nodes := [info] + nodes;
    }

    /** `find_sync_info`. */
    method Find(key: Endpoint) returns (r: SyncInfo?)
      requires Valid()
      ensures r == null <==> IndexOf(Entries(), key).None?
      ensures r != null ==> nodes[IndexOf(Entries(), key).value] == r
      ensures OnList(Entries(), FindOp(key)).1 == Found(if r == null then None else Some(r.Value()))
    {
      var prev;
      ghost var i;
      prev, r, i := Search(key);
    }

    /** The node is taken out of the chain, at the head or behind its predecessor. */
    method Unlink(prev: SyncInfo?, current: SyncInfo, ghost i: nat)
      requires Valid() && i < |nodes| && nodes[i] == current
      requires prev == if i > 0 then nodes[i - 1] else null
      modifies this, nodes`next
      ensures Valid() && nodes == old(nodes)[..i] + old(nodes)[i + 1..]
    {
      ghost var before := nodes;
      if prev != null {
        prev.next := current.next;
      } else {
        head := current.next;
      }
      count := count - 1;
      nodes := nodes[..i] + nodes[i + 1..];
      assert forall k :: 0 <= k < |nodes| ==> nodes[k] == before[if k < i then k else k + 1];
    }

    /** The entries that are left keep their order and their values. */
    method UnlinkEntry(prev: SyncInfo?, current: SyncInfo, ghost key: Endpoint, ghost i: nat)
      requires Valid() && IndexOf(Entries(), key) == Some(i) && nodes[i] == current
      requires prev == if i > 0 then nodes[i - 1] else null
      modifies this, nodes`next
      ensures Valid() && nodes == old(nodes)[..i] + old(nodes)[i + 1..]
      ensures (Entries(), Code(0)) == OnList(old(Entries()), RemoveOp(key))
    {
      ghost var before, es := nodes, Entries();
      Unlink(prev, current, i);
      forall k | 0 <= k < |nodes|
        ensures Entries()[k] == es[if k < i then k else k + 1]
      {
        assert nodes[k] == before[if k < i then k else k + 1];
      }
      RemovedAt(es, Entries(), key, i);
    }

    /** `remove_sync_info`. */
    method Remove(key: Endpoint) returns (rc: int)
      requires Valid()
      modifies this, nodes`next
      ensures Valid()
      ensures (Entries(), Code(rc)) == OnList(old(Entries()), RemoveOp(key))
      ensures rc == 1 ==> nodes == old(nodes)
      ensures rc == 0 ==> var i := IndexOf(old(Entries()), key).value;
        nodes == old(nodes)[..i] + old(nodes)[i + 1..]
    {
      var prev, current;
      ghost var i, es := 0, Entries();
      prev, current, i := Search(key);
      assert Entries() == es;
      if current == null {
        return 1;
      }
      UnlinkEntry(prev, current, key, i);
      rc := 0;
    }

    method Clear(info: SyncInfo, ghost i: nat)
      requires Valid() && i < |nodes| && nodes[i] == info
      modifies info`active
      ensures Valid() && nodes == old(nodes)
      ensures Entries() == old(Entries())[i := old(Entries())[i].(active := false)]
    {
      info.active := false;
    }

    /** `deactivate_sync_info`: the entry stays, only its flag goes down. */
    method Deactivate(key: Endpoint) returns (rc: int)
      requires Valid()
      modifies nodes`active
      ensures Valid() && nodes == old(nodes)
      ensures (Entries(), Code(rc)) == OnList(old(Entries()), DeactivateOp(key))
    {
      var info := Find(key);
      if info == null {
        return 1;
      }
      ghost var i, before := IndexOf(Entries(), key).value, Entries();
      assert OnList(before, DeactivateOp(key)) == (before[i := before[i].(active := false)], Code(0));
      Clear(info, i);
      rc := 0;
    }

    /** `destroy_sync_info_store`: every entry is freed, once. */
    method FreeAll() returns (freed: seq<SyncInfo>)
      requires Valid()
      ensures freed == nodes
    {
      freed := [];
      var current := head;
      while current != null
        invariant |freed| <= |nodes| && freed == nodes[..|freed|]
        invariant current == if |freed| < |nodes| then nodes[|freed|] else null
        decreases |nodes| - |freed|
      {
        var next := current.next;
        freed := freed + [current];
        current := next;
      }
    }
  }
}
