/** Whose files the accepted jobs copy, over every run of commands. */
module ManagerJobs {
  import opened DirectorySpec
  import opened Jobs
  import opened ManagerRuns
  import opened SyncEntries

  /** A job copies from a stored source to the target stored with it. */
  predicate Belongs(es: seq<Entry>, job: Job) {
    IndexOf(es, job.source).Some? && es[IndexOf(es, job.source).value].target == job.target
  }

  /** Every accepted job belongs to a stored pair, and jobs are told apart by their numbers. */
  ghost predicate AllBelong(b: Books) {
    && (forall i :: 0 <= i < |b.accepted| ==> Belongs(b.entries, b.accepted[i]) && b.accepted[i].id < b.nextId)
    && forall i, j :: 0 <= i < j < |b.accepted| ==> b.accepted[i].id < b.accepted[j].id
  }

  lemma BelongsAfterAdd(es: seq<Entry>, entry: Entry, job: Job)
    requires IndexOf(es, entry.source).None? && Belongs(es, job)
    ensures Belongs([entry] + es, job)
  {
    IndexOfCons(entry, es, job.source);
  }

  lemma AddingBelongs(b: Books, entry: Entry, names: seq<string>, taken: nat)
    requires AllBelong(b) && Fits(entry.source) && Fits(entry.target)
    ensures AllBelong(Adding(b, entry, names, taken))
  {
    if IndexOf(b.entries, entry.source).None? {
      var n, es := Min(taken, |names|), [entry] + b.entries;
      var jobs := JobsOf(b.nextId, entry, names)[..n];
      var all := b.accepted + jobs;
      IndexOfCons(entry, b.entries, entry.source);
      assert forall k :: 0 <= k < |jobs| ==>
        jobs[k].source == entry.source && jobs[k].target == entry.target && jobs[k].id == b.nextId + k;
      forall i | 0 <= i < |all|
        ensures Belongs(es, all[i]) && all[i].id < b.nextId + |names|
      {
        if i < |b.accepted| {
          BelongsAfterAdd(b.entries, entry, b.accepted[i]);
        } else {
          assert all[i] == jobs[i - |b.accepted|];
        }
      }
      forall i, j | 0 <= i < j < |all|
        ensures all[i].id < all[j].id
      {
        if j >= |b.accepted| {
          assert all[j] == jobs[j - |b.accepted|];
          assert i >= |b.accepted| ==> all[i] == jobs[i - |b.accepted|];
        }
      }
    }
  }

  lemma CancellingBelongs(b: Books, key: Endpoint)
    requires AllBelong(b)
    ensures AllBelong(Cancelling(b, key))
  {
    var b' := Cancelling(b, key);
    forall i | 0 <= i < |b'.accepted|
      ensures Belongs(b'.entries, b'.accepted[i])
    {
      SameIndex(b'.entries, b.entries, b.accepted[i].source);
      assert Belongs(b.entries, b.accepted[i]);
    }
  }

  lemma ApplyBelongs(b: Books, c: Command)
    requires AllBelong(b)
    ensures AllBelong(Apply(b, c))
  {
    match c
    case Other =>
    case Cancel(spec) => if Parse(spec).Some? { CancellingBelongs(b, Parse(spec).value); }
    case Add(sourceSpec, targetSpec, reply, taken) =>
      var pair := ParsePair(sourceSpec, targetSpec);
      if pair.Some? {
        ParsedIsCopiedExactly(sourceSpec, pair.value.source);
        ParsedIsCopiedExactly(targetSpec, pair.value.target);
        AddingBelongs(b, pair.value, NamesFor(pair.value, reply), taken);
      }
  }

  /** Over every run of configuration lines and commands each accepted job copies from a stored
      source to exactly the target stored with it, and no two jobs are the same one. */
  lemma {:induction false} JobsBelong(b: Books, commands: seq<Command>)
    requires AllBelong(b)
    ensures AllBelong(Run(b, commands))
    decreases |commands|
  {
    if commands != [] {
      ApplyBelongs(b, commands[0]);
      JobsBelong(Apply(b, commands[0]), commands[1..]);
    }
  }
}
