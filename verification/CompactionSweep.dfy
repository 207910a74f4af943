/**
  The compaction sweep itself (services/api/src/archive/compaction-sweep.ts): it
  reads, deduplicates, writes, repoints and deletes over one bucket and one table,
  and every call, however it fails, is a run of the step relation.
*/
module CompactionSweep {
  import opened Base
  import opened Keys
  import opened Compaction
  import opened Runs

  /** What a caller learns of an effect: done; not done; or done but not learnt of. */
  datatype Reply = Done | Refused | Lost

  /** What can go wrong in one partition: reads that throw, reads that come back
      empty, the PUT, the mutation and the rows it reached when it failed, the keys
      that do not get deleted, and the keys whose deletion is reported as an error. */
  datatype Faults = Faults(broken: set<Key>, unreadable: set<Key>, put: Reply, mutated: bool, reached: set<nat>,
      stuck: set<Key>, reported: set<Key>)

  const MAX_DELETES := 1000

  /** The originals that yield events: the only candidates for deletion. */
  function Readable(originals: seq<Key>, objects: Objects, unreadable: set<Key>): (ks: seq<Key>)
    requires forall k :: k in originals ==> k in objects
    ensures forall k :: k in ks ==> k in originals
  {
    if originals == [] then []
    else (if originals[0] in unreadable || objects[originals[0]] == [] then [] else [originals[0]])
         + Readable(originals[1..], objects, unreadable)
  }

  /** In the order of a listing. */
  predicate Ordered(keys: seq<Key>) { forall i, j :: 0 <= i < j < |keys| ==> Less(keys[i], keys[j]) }

  /** Such a list is told by what is in it. */
  lemma {:induction false} OrderedIsTold(a: seq<Key>, b: seq<Key>)
    requires Ordered(a) && Ordered(b) && multiset(a) == multiset(b)
    ensures a == b
  {
    if a == [] {
      assert |b| == |multiset(b)| == 0;
    } else {
      assert a[0] in multiset(a) && b != [];
      FirstIsLeast(a, b[0]);
      FirstIsLeast(b, a[0]);
      LessIsTotal(a[0], b[0]);
      SameRest(a, b);
      OrderedIsTold(a[1..], b[1..]);
    }
  }

  lemma SameRest(a: seq<Key>, b: seq<Key>)
    requires a != [] && b != [] && a[0] == b[0] && multiset(a) == multiset(b)
    ensures multiset(a[1..]) == multiset(b[1..]) && a == [a[0]] + a[1..] && b == [b[0]] + b[1..]
  {
    var x, s, t := a[0], a[1..], b[1..];
    assert a == [x] + s;
    assert b == [x] + t;
    assert multiset(s) == multiset(a) - multiset{x};
    assert multiset(t) == multiset(b) - multiset{x};
  }

  lemma FirstIsLeast(keys: seq<Key>, k: Key)
    requires Ordered(keys) && keys != []
    ensures k in multiset(keys) ==> k == keys[0] || Less(keys[0], k)
  {
  }

  lemma {:induction false} ReadableSnoc(keys: seq<Key>, k: Key, objects: Objects, unreadable: set<Key>)
    requires forall x :: x in keys + [k] ==> x in objects
    ensures forall x :: x in keys ==> x in keys + [k]
    ensures k in keys + [k]
    ensures Readable(keys + [k], objects, unreadable)
         == Readable(keys, objects, unreadable) + (if k in unreadable || objects[k] == [] then [] else [k])
  {
    assert forall x :: x in keys ==> x in keys + [k];
    assert (keys + [k])[|keys|] == k;
    if keys != [] {
      assert (keys + [k])[1..] == keys[1..] + [k];
      ReadableSnoc(keys[1..], k, objects, unreadable);
    }
  }

  lemma {:induction false} EventsOfSnoc(objects: Objects, keys: seq<Key>, k: Key)
    requires (forall x :: x in keys ==> x in objects) && k in objects
    ensures forall x :: x in keys + [k] ==> x in objects
    ensures EventsOf(objects, keys + [k]) == EventsOf(objects, keys) + objects[k]
  {
    if keys == [] {
      assert [k][1..] == [];
    } else {
      assert (keys + [k])[1..] == keys[1..] + [k];
      EventsOfSnoc(objects, keys[1..], k);
    }
  }

  /** The ids that a scan has seen. */
  function SeenAfter(events: seq<Event>): set<string> { set e | e in events && e.id.Some? :: e.id.value }

  lemma SeenSnoc(events: seq<Event>, e: Event)
    ensures SeenAfter(events + [e]) == if e.id.Some? then SeenAfter(events) + {e.id.value} else SeenAfter(events)
    ensures {} + SeenAfter(events) == SeenAfter(events)
  {
  }

  lemma Onward(before: seq<Event>, events: seq<Event>, j: nat)
    requires j < |events|
    ensures before + events[..j + 1] == (before + events[..j]) + [events[j]]
  {
  }

  /** What the scan keeps of one more event. */
  lemma {:induction false} DedupedSnoc(events: seq<Event>, e: Event, seen: set<string>)
    ensures Deduped(events + [e], seen)
         == Deduped(events, seen) + (if e.id.Some? && e.id.value in seen + SeenAfter(events) then [] else [e])
  {
    if events != [] {
      var first := events[0];
      assert (events + [e])[1..] == events[1..] + [e];
      var seen' := if first.id.Some? then seen + {first.id.value} else seen;
      DedupedSnoc(events[1..], e, seen);
      DedupedSnoc(events[1..], e, seen');
      assert seen' + SeenAfter(events[1..]) == seen + SeenAfter(events);
      if first.id.Some? && first.id.value in seen {
        assert seen + SeenAfter(events[1..]) == seen + SeenAfter(events);
      }
    } else {
      assert seen + SeenAfter([]) == seen;
    }
  }

  /** How far one call got before it returned or threw. */
  datatype Outcome =
    | Untouched                     // nothing written
    | OnlyStored                    // the compacted object is there
    | PartlyRepointed(which: set<nat>)
    | Swept(deleted: seq<Key>)      // all rows repointed, these originals deleted

  /** The bucket and the table after a call. */
  function BucketAfter(objects: Objects, target: Key, merged: seq<Event>, outcome: Outcome): Objects {
    match outcome
    case Untouched => objects
    case Swept(deleted) => objects[target := merged] - (set k | k in deleted)
    case _ => objects[target := merged]
  }

  function RowsAfter(rows: seq<Row>, job: Job, outcome: Outcome): seq<Row> {
    match outcome
    case PartlyRepointed(which) => Repoint(rows, job.(upto := |rows|), false, which)
    case Swept(_) => Repoint(rows, job.(upto := |rows|), true, {})
    case _ => rows
  }

  class Sweep {
    var objects: Objects
    var rows: seq<Row>
    const digest: multiset<Key> -> string  // SHA-256 of the sorted read set

    constructor (objects: Objects, rows: seq<Row>, digest: multiset<Key> -> string)
      ensures this.objects == objects && this.rows == rows && this.digest == digest
    {
      this.objects, this.rows, this.digest := objects, rows, digest;
    }

    function Target(partition: Key, keys: seq<Key>): Key { CompactedKey(partition, digest(multiset(keys))) }

    /** Reading and deduplicating the originals. */
    method ReadSources(originals: seq<Key>, f: Faults) returns (threw: bool, readKeys: seq<Key>, merged: seq<Event>)
      ensures threw <==> exists k :: k in originals && (k in f.broken || k !in objects)
      ensures !threw ==> readKeys == Readable(originals, objects, f.unreadable)
      ensures !threw ==> merged == Merged(objects, readKeys)
    {
      var seen: set<string> := {};
      threw, readKeys, merged := false, [], [];
      ghost var done := [];
      var i := 0;
      while i < |originals|
        invariant 0 <= i <= |originals| && done == originals[..i]
        invariant forall k :: k in done ==> k in objects && k !in f.broken
        invariant !threw && readKeys == Readable(done, objects, f.unreadable)
        invariant merged == Merged(objects, readKeys) && seen == SeenAfter(EventsOf(objects, readKeys))
      {
        var key := originals[i];
        if key in f.broken || key !in objects {
          threw := true;
          return;
        }
        ReadableSnoc(done, key, objects, f.unreadable);
        done := done + [key];
        var events := if key in f.unreadable then [] else objects[key];
        if |events| > 0 {
          EventsOfSnoc(objects, readKeys, key);
          seen, merged := AddEvents(EventsOf(objects, readKeys), events, seen, merged);
          readKeys := readKeys + [key];
        }
        i := i + 1;
      }
      assert done == originals;
    }

    /** The inner loop: one object's events on top of those read `before`. */
    static method AddEvents(ghost before: seq<Event>, events: seq<Event>, seen0: set<string>, merged0: seq<Event>)
      returns (seen: set<string>, merged: seq<Event>)
      requires merged0 == Deduped(before, {}) && seen0 == SeenAfter(before)
      ensures merged == Deduped(before + events, {}) && seen == SeenAfter(before + events)
    {
      seen, merged := seen0, merged0;
      ghost var done := before;
      for j := 0 to |events|
        invariant done == before + events[..j]
        invariant merged == Deduped(done, {}) && seen == SeenAfter(done)
      {
        var event := events[j];
        DedupedSnoc(done, event, {});
        SeenSnoc(done, event);
        Onward(before, events, j);
        done := done + [event];
        if event.id.Some? {
          if event.id.value in seen {
            continue;
          }
          seen := seen + {event.id.value};
        }
        merged := merged + [event];
      }
      assert done == before + events;
    }

    /** One deletion request of at most a thousand keys: the stuck ones stay and are
        reported, the others go, reported or not. */
    method DeleteChunk(chunk: seq<Key>, f: Faults) returns (errors: bool, ghost deleted: seq<Key>)
      modifies this`objects
      ensures objects == old(objects) - (set k | k in deleted)
      ensures forall k :: k in deleted <==> k in chunk && k !in f.stuck
      ensures errors <==> exists k :: k in chunk && (k in f.stuck || k in f.reported)
    {
      errors, deleted := false, [];
      var i := 0;
      while i < |chunk|
        invariant 0 <= i <= |chunk|
        invariant objects == old(objects) - (set k | k in deleted)
        invariant forall k :: k in deleted <==> k in chunk[..i] && k !in f.stuck
        invariant errors <==> exists k :: k in chunk[..i] && (k in f.stuck || k in f.reported)
      {
        var key := chunk[i];
        assert chunk[..i + 1] == chunk[..i] + [key];
        errors := errors || key in f.stuck || key in f.reported;
        if key !in f.stuck {
          objects := objects - {key};
          deleted := deleted + [key];
        }
        i := i + 1;
      }
      assert chunk[..i] == chunk;
    }

    /** Deleting the originals, a thousand at a time, stopping at the first chunk
        that reports an error. */
    method DeleteObjects(keys: seq<Key>, f: Faults) returns (threw: bool, ghost deleted: seq<Key>)
      modifies this`objects
      ensures objects == old(objects) - (set k | k in deleted)
      ensures forall k :: k in deleted ==> k in keys && k !in f.stuck
      ensures threw <==> exists k :: k in keys && (k in f.stuck || k in f.reported)
      ensures !threw ==> forall k :: k in keys ==> k in deleted
    {
      threw, deleted := false, [];
      var i := 0;
      while i < |keys|
        invariant 0 <= i <= |keys|
        invariant objects == old(objects) - (set k | k in deleted)
        invariant forall k :: k in deleted <==> k in keys[..i]
        invariant forall k :: k in keys[..i] ==> k !in f.stuck && k !in f.reported
      {
        var end := if i + MAX_DELETES < |keys| then i + MAX_DELETES else |keys|;
        ghost var more;
        threw, more := DeleteChunk(keys[i..end], f);
        assert keys[..end] == keys[..i] + keys[i..end];
        deleted := deleted + more;
        if threw {
          return;
        }
        i := end;
      }
      assert keys[..i] == keys;
    }

    /** Compacting one partition: what it merged, how far it got, and what it says.
        `keys` is the read set: nothing when a read fails or fewer than two originals
        yield events. The first write that fails is the last; the deletions come only
        when every row of the tenant that named one of `keys` names the target. */
    method CompactPartition(tenant: string, partition: Key, originals: seq<Key>, f: Faults)
      returns (removed: nat, threw: bool, ghost keys: seq<Key>, ghost outcome: Outcome)
      modifies this`objects, this`rows
      ensures if exists k :: k in originals && (k in f.broken || k !in old(objects)) then threw && keys == []
              else var read := Readable(originals, old(objects), f.unreadable);
                   keys == if |read| >= 2 then read else []
      ensures forall k :: k in keys ==> k in originals && k in old(objects) && old(objects)[k] != []
      ensures objects == BucketAfter(old(objects), Target(partition, keys), Merged(old(objects), keys), outcome)
      ensures rows == RowsAfter(old(rows), Job(tenant, keys, Target(partition, keys), Stored, 0), outcome)
      ensures keys == [] || f.put == Refused ==> outcome == Untouched
      ensures keys != [] && f.put == Lost ==> outcome == OnlyStored
      ensures keys != [] && f.put == Done && !f.mutated ==> outcome == PartlyRepointed(f.reached)
      ensures keys != [] && f.put == Done && f.mutated
              ==> outcome.Swept? && forall k :: k in outcome.deleted ==> k in keys && k !in f.stuck
      ensures keys != [] ==> (threw <==> f.put != Done || !f.mutated
                                         || exists k :: k in keys && (k in f.stuck || k in f.reported))
      ensures keys == [] ==> (threw <==> exists k :: k in originals && (k in f.broken || k !in old(objects)))
      ensures removed == if threw then 0 else |keys|
      ensures !threw && keys != [] ==> forall k :: k in keys ==> k in outcome.deleted
    {
      removed, outcome, keys := 0, Untouched, [];
      var readKeys, merged;
      threw, readKeys, merged := ReadSources(originals, f);
      if threw || |readKeys| < 2 {
        return;
      }
      ReadableYields(originals, objects, f.unreadable);
      keys := readKeys;
      removed, threw, outcome := Replace(tenant, readKeys, Target(partition, readKeys), merged, f);
    }

    /** The three writes, in this order: the PUT, the mutation, the deletions. */
    method Replace(tenant: string, readKeys: seq<Key>, target: Key, merged: seq<Event>, f: Faults)
      returns (removed: nat, threw: bool, ghost outcome: Outcome)
      requires readKeys != []
      modifies this`objects, this`rows
      ensures objects == BucketAfter(old(objects), target, merged, outcome)
      ensures rows == RowsAfter(old(rows), Job(tenant, readKeys, target, Stored, 0), outcome)
      ensures f.put == Refused ==> outcome == Untouched
      ensures f.put == Lost ==> outcome == OnlyStored
      ensures f.put == Done && !f.mutated ==> outcome == PartlyRepointed(f.reached)
      ensures f.put == Done && f.mutated
              ==> outcome.Swept? && forall k :: k in outcome.deleted ==> k in readKeys && k !in f.stuck
      ensures threw <==> f.put != Done || !f.mutated
                         || exists k :: k in readKeys && (k in f.stuck || k in f.reported)
      ensures removed == if threw then 0 else |readKeys|
      ensures !threw ==> forall k :: k in readKeys ==> k in outcome.deleted
    {
      removed, threw, outcome := 0, true, Untouched;
      if f.put == Refused {
        return;
      }
      objects := objects[target := merged];
      outcome := OnlyStored;
      if f.put == Lost {
        return;
      }
      var job := Job(tenant, readKeys, target, Mutating, |rows|);
      if !f.mutated {
        rows := Repoint(rows, job, false, f.reached);
        outcome := PartlyRepointed(f.reached);
        return;
      }
      rows := Repoint(rows, job, true, {});
      ghost var deleted;
      threw, deleted := DeleteObjects(readKeys, f);
      outcome := Swept(deleted);
      removed := if threw then 0 else |readKeys|;
    }
  }

  lemma {:induction false} ReadableYields(originals: seq<Key>, objects: Objects, unreadable: set<Key>)
    requires forall k :: k in originals ==> k in objects
    ensures forall k :: k in Readable(originals, objects, unreadable) ==> objects[k] != []
  {
    if originals != [] {
      ReadableYields(originals[1..], objects, unreadable);
    }
  }

  /** The read set: exactly the originals that can be read and have events, in the order
      of the listing. */
  lemma {:induction false} ReadableIs(originals: seq<Key>, objects: Objects, unreadable: set<Key>)
    requires forall k :: k in originals ==> k in objects
    ensures forall k :: k in Readable(originals, objects, unreadable)
                        <==> k in originals && k !in unreadable && objects[k] != []
    ensures Ordered(originals) ==> Ordered(Readable(originals, objects, unreadable))
  {
    if originals != [] {
      var first, rest := originals[0], Readable(originals[1..], objects, unreadable);
      ReadableIs(originals[1..], objects, unreadable);
      assert originals == [first] + originals[1..];
      if Ordered(originals) {
        forall k | k in rest ensures Less(first, k) {
          assert k in originals[1..];
        }
      }
    }
  }

  // -------------------------------------------------------- a call is a run of steps

  /** The state after a call, in a system with any other jobs in progress. */
  ghost function After(s: State, job: Job, merged: seq<Event>, outcome: Outcome): State {
    s.(objects := BucketAfter(s.objects, job.target, merged, outcome),
       rows := RowsAfter(s.rows, job, outcome),
       sources := if outcome == Untouched then s.sources else s.sources[job.target := job.keys])
  }

  /** The moves of `steps` include all those of the system. */
  ghost predicate Covers(steps: (State, State) -> bool, n: Naming) {
    forall s, step {:trigger steps(s, Next(n, s, step))} :: Enabled(n, s, step) ==> steps(s, Next(n, s, step))
  }

  /** One more step of a run. */
  lemma Extend(steps: (State, State) -> bool, n: Naming, s: State, t: State, step: Step) returns (u: State)
    requires Covers(steps, n) && Run(steps, s, t) && Enabled(n, t, step)
    ensures u == Next(n, t, step) && Run(steps, s, u)
  {
    u := Next(n, t, step);
    assert steps(t, Next(n, t, step));
    Then(steps, s, t, u);
  }

  lemma {:induction false} DeletionsAreRun(steps: (State, State) -> bool, n: Naming, s: State, t: State, id: nat,
        deleted: seq<Key>) returns (u: State)
    requires Covers(steps, n) && Run(steps, s, t)
    requires id in t.jobs && t.jobs[id].phase == Repointed && forall x :: x in deleted ==> x in t.jobs[id].keys
    ensures Run(steps, s, u) && u == t.(objects := t.objects - (set x | x in deleted))
    decreases |deleted|
  {
    if deleted == [] {
      u := t;
      assert t.objects - (set x | x in deleted) == t.objects;
    } else {
      var v := Extend(steps, n, s, t, Delete(id, deleted[0]));
      u := DeletionsAreRun(steps, n, s, v, id, deleted[1..]);
      assert (t.objects - {deleted[0]}) - (set x | x in deleted[1..]) == t.objects - (set x | x in deleted);
    }
  }

  /** The part of a run from the PUT on, up to the end of the job. */
  lemma StoredIsRun(steps: (State, State) -> bool, n: Naming, s: State, t: State, id: nat, outcome: Outcome)
    returns (u: State)
    requires Covers(steps, n) && Run(steps, s, t)
    requires id in t.jobs && t.jobs[id].phase == Stored
    requires outcome != Untouched && (outcome.Swept? ==> forall x :: x in outcome.deleted ==> x in t.jobs[id].keys)
    ensures Run(steps, s, u) && u.jobs == t.jobs - {id} && u.sources == t.sources && u.landed == t.landed
    ensures u.rows == RowsAfter(t.rows, t.jobs[id], outcome)
    ensures u.objects == if outcome.Swept? then t.objects - (set x | x in outcome.deleted) else t.objects
  {
    var v := t;
    match outcome {
      case OnlyStored =>
      case PartlyRepointed(which) =>
        v := Extend(steps, n, s, v, Submit(id));
        v := Extend(steps, n, s, v, RepointSome(id, which));
      case Swept(deleted) =>
        v := Extend(steps, n, s, v, Submit(id));
        v := Extend(steps, n, s, v, RepointAll(id));
        v := DeletionsAreRun(steps, n, s, v, id, deleted);
    }
    u := Extend(steps, n, s, v, Stop(id));
  }

  lemma CallIsRunOf(steps: (State, State) -> bool, n: Naming, s: State, id: nat, job: Job, outcome: Outcome)
    returns (t: State)
    requires Covers(steps, n) && Enabled(n, s, Start(id, job))
    requires forall k :: k in job.keys ==> k in s.objects && s.objects[k] == s.landed[k]
    requires outcome.Swept? ==> forall k :: k in outcome.deleted ==> k in job.keys
    ensures Run(steps, s, t) && t == After(s, job, Merged(s.objects, job.keys), outcome)
  {
    Nothing(steps, s);
    if outcome == Untouched {
      t := s;
    } else {
      var v := Extend(steps, n, s, s, Start(id, job));
      v := Extend(steps, n, s, v, Put(id));
      MergedFrame(s.landed, s.objects, job.keys);
      t := StoredIsRun(steps, n, s, v, id, outcome);
      assert t.jobs == s.jobs;
      RepointIgnoresPhase(s.rows, job, outcome);
    }
  }

  lemma RepointIgnoresPhase(rows: seq<Row>, job: Job, outcome: Outcome)
    ensures RowsAfter(rows, job.(phase := Stored), outcome) == RowsAfter(rows, job, outcome)
  {
  }

  /** A call of `CompactPartition` is a run of one job, whatever the outcome: so
      all that holds over runs holds across the call, and after it. */
  lemma CallIsRun(n: Naming, s: State, id: nat, job: Job, outcome: Outcome)
    requires Inv(n, s) && Enabled(n, s, Start(id, job)) && forall k :: k in job.keys ==> k in s.objects
    requires outcome.Swept? ==> forall k :: k in outcome.deleted ==> k in job.keys
    ensures Run(Steps(n), s, After(s, job, Merged(s.objects, job.keys), outcome))
  {
    var t := CallIsRunOf(Steps(n), n, s, id, job, outcome);
  }

  // ---------------------------------------------------------- which keys are grouped

  const TENANT := "tenant="

  /** The tenant a key belongs to: what stands between its first `tenant=` and slash. */
  function TenantOf(key: Key): string {
    if StartsWith(key, TENANT) then UpToSlash(key[|TENANT|..]) else ""
  }

  function UpToSlash(text: string): string {
    if text == [] || text[0] == '/' then [] else [text[0]] + UpToSlash(text[1..])
  }

  function ListingPrefix(tenant: string): string { TENANT + (tenant + "/") }

  lemma {:induction false} UpToSlashOf(tenant: string, rest: string)
    requires NoSlash(tenant)
    ensures UpToSlash(tenant + "/" + rest) == tenant
  {
    if tenant == [] {
      assert ("" + "/" + rest)[0] == '/';
    } else {
      assert (tenant + "/" + rest)[1..] == tenant[1..] + "/" + rest;
      UpToSlashOf(tenant[1..], rest);
    }
  }

  /** A key listed under a tenant's prefix is that tenant's, and no other's. */
  lemma ListedIsOwned(key: Key, tenant: string)
    requires NoSlash(tenant) && StartsWith(key, ListingPrefix(tenant))
    ensures TenantOf(key) == tenant
  {
    var prefix := ListingPrefix(tenant);
    var rest := key[|prefix|..];
    assert key == TENANT + (tenant + "/" + rest);
    assert key[..|TENANT|] == TENANT && key[|TENANT|..] == tenant + "/" + rest;
    UpToSlashOf(tenant, rest);
  }

  lemma {:induction false} NameStartIsBeyond(key: Key, i: nat)
    requires 0 < i <= |key| && key[i - 1] == '/'
    ensures NameStart(key) >= i
  {
    if i < |key| && key[|key| - 1] != '/' {
      NameStartIsBeyond(key[..|key| - 1], i);
    }
  }

  /** A partition of a tenant's listing ends in a slash and is that tenant's. */
  lemma PartitionIsOwned(key: Key, tenant: string)
    requires NoSlash(tenant) && StartsWith(key, ListingPrefix(tenant))
    ensures StartsWith(Partition(key), ListingPrefix(tenant)) && NameStart(Partition(key)) == |Partition(key)|
  {
    var prefix := ListingPrefix(tenant);
    assert prefix[|prefix| - 1] == '/' && key[..|prefix|] == prefix;
    NameStartIsBeyond(key, |prefix|);
    assert Partition(key)[..|prefix|] == key[..|prefix|];
    NameStartIsLast(Partition(key), |Partition(key)|);
  }

  ghost function ArchiveNaming(): Naming { Naming(IsCompacted, TenantOf) }

  /** The originals of one partition, in listing order. */
  function Originals(keys: seq<Key>, partition: Key): seq<Key> {
    if keys == [] then []
    else
      var last := keys[|keys| - 1];
      Originals(keys[..|keys| - 1], partition)
      + (if !IsCompacted(last) && Partition(last) == partition then [last] else [])
  }

  lemma {:induction false} OriginalsAre(keys: seq<Key>, partition: Key, k: Key)
    ensures k in Originals(keys, partition) <==> k in keys && !IsCompacted(k) && Partition(k) == partition
  {
    if keys != [] {
      OriginalsAre(keys[..|keys| - 1], partition, k);
      assert keys == keys[..|keys| - 1] + [keys[|keys| - 1]];
    }
  }

  lemma {:induction false} OriginalsAreOrdered(keys: seq<Key>, partition: Key)
    requires Ordered(keys)
    ensures Ordered(Originals(keys, partition))
  {
    if keys != [] {
      var most, last := keys[..|keys| - 1], keys[|keys| - 1];
      OriginalsAreOrdered(most, partition);
      forall k | k in Originals(most, partition) ensures Less(k, last) {
        OriginalsAre(most, partition, k);
      }
    }
  }

  /** Grouping a listing: every original in the group of its partition, in order,
      and no compacted object in any. */
  method GroupOriginals(keys: seq<Key>) returns (partitions: map<Key, seq<Key>>)
    ensures forall p :: p in partitions ==> partitions[p] == Originals(keys, p) && partitions[p] != []
    ensures forall p :: p !in partitions ==> Originals(keys, p) == []
  {
    partitions := map[];
    ghost var seen: seq<Key> := [];
    for i := 0 to |keys|
      invariant seen == keys[..i]
      invariant forall p :: p in partitions ==> partitions[p] == Originals(seen, p) && partitions[p] != []
      invariant forall p :: p !in partitions ==> Originals(seen, p) == []
    {
      var key := keys[i];
      assert (seen + [key])[..|seen|] == seen;
      seen := seen + [key];
      if !IsCompacted(key) {
        var prefix := Partition(key);
        var group := if prefix in partitions then partitions[prefix] else [];
        partitions := partitions[prefix := group + [key]];
      }
    }
    assert seen == keys;
  }

  /** Of some read sets no two share a digest, and each digest fits into a file name. */
  ghost predicate CollisionFree(digest: multiset<Key> -> string, used: set<multiset<Key>>) {
    && (forall a, b :: a in used && b in used && digest(a) == digest(b) ==> a == b)
    && forall a :: a in used ==> NoSlash(digest(a))
  }

  function ReadSets(sources: map<Key, seq<Key>>): set<multiset<Key>> { set c | c in sources :: multiset(sources[c]) }

  /** A compacted key is named after its sources, which come in the order of a listing. */
  ghost predicate Names(digest: multiset<Key> -> string, c: Key, keys: seq<Key>) {
    Ordered(keys) && exists p :: NameStart(p) == |p| && c == CompactedKey(p, digest(multiset(keys)))
  }

  ghost predicate AllNamed(digest: multiset<Key> -> string, sources: map<Key, seq<Key>>) {
    forall c :: c in sources ==> Names(digest, c, sources[c])
  }

  lemma NameTells(digest: multiset<Key> -> string, used: set<multiset<Key>>, c: Key, a: seq<Key>, b: seq<Key>)
    requires CollisionFree(digest, used) && multiset(a) in used && multiset(b) in used
    requires Names(digest, c, a) && Names(digest, c, b)
    ensures a == b
  {
    var p :| NameStart(p) == |p| && c == CompactedKey(p, digest(multiset(a)));
    var q :| NameStart(q) == |q| && c == CompactedKey(q, digest(multiset(b)));
    CompactedKeyTells(p, q, digest(multiset(a)), digest(multiset(b)));
    OrderedIsTold(a, b);
  }

  /** The system's hypotheses on a new job hold of every call made on the read set of such
      a group, if its digest is none of an earlier read set; and the call keeps the
      naming. */
  lemma CallMayStart(s: State, id: nat, tenant: string, listing: seq<Key>, partition: Key, unreadable: set<Key>,
        keys: seq<Key>, digest: multiset<Key> -> string)
    requires Inv(ArchiveNaming(), s) && NoSlash(tenant) && id !in s.jobs && Ordered(listing)
    requires AllNamed(digest, s.sources) && CollisionFree(digest, ReadSets(s.sources) + {multiset(keys)})
    requires forall k :: k in listing ==> StartsWith(k, ListingPrefix(tenant))
    requires forall k :: k in Originals(listing, partition) ==> k in s.objects
    requires keys == Readable(Originals(listing, partition), s.objects, unreadable) != []
    ensures var target := CompactedKey(partition, digest(multiset(keys)));
            && Enabled(ArchiveNaming(), s, Start(id, Job(tenant, keys, target, Reading, 0)))
            && AllNamed(digest, s.sources[target := keys])
  {
    var n, target := ArchiveNaming(), CompactedKey(partition, digest(multiset(keys)));
    ReadSetIsOwned(s.objects, tenant, listing, partition, unreadable, keys);
    TargetIsOwned(partition, tenant, digest(multiset(keys)));
    TargetIsFree(digest, s.sources, partition, keys, target, ReadSets(s.sources) + {multiset(keys)});
  }

  /** The read set of a group, and whose it is. */
  lemma ReadSetIsOwned(objects: Objects, tenant: string, listing: seq<Key>, partition: Key, unreadable: set<Key>,
        keys: seq<Key>)
    requires NoSlash(tenant) && Ordered(listing) && forall k :: k in listing ==> StartsWith(k, ListingPrefix(tenant))
    requires forall k :: k in Originals(listing, partition) ==> k in objects
    requires keys == Readable(Originals(listing, partition), objects, unreadable) != []
    ensures Ordered(keys) && forall k :: k in keys ==> k in objects && !IsCompacted(k) && TenantOf(k) == tenant
    ensures StartsWith(partition, ListingPrefix(tenant)) && NameStart(partition) == |partition|
  {
    forall k | k in keys ensures !IsCompacted(k) && TenantOf(k) == tenant {
      OriginalsAre(listing, partition, k);
      ListedIsOwned(k, tenant);
    }
    OriginalsAre(listing, partition, keys[0]);
    PartitionIsOwned(keys[0], tenant);
    OriginalsAreOrdered(listing, partition);
    ReadableIs(Originals(listing, partition), objects, unreadable);
  }

  lemma IsNamed(digest: multiset<Key> -> string, target: Key, partition: Key, keys: seq<Key>)
    requires Ordered(keys) && NameStart(partition) == |partition|
    requires target == CompactedKey(partition, digest(multiset(keys)))
    ensures Names(digest, target, keys)
  {
  }

  lemma IsReadSet(sources: map<Key, seq<Key>>, keys: seq<Key>, used: set<multiset<Key>>, c: Key)
    requires c in sources && used == ReadSets(sources) + {multiset(keys)}
    ensures multiset(sources[c]) in used && multiset(keys) in used
  {
  }

  lemma StaysNamed(digest: multiset<Key> -> string, sources: map<Key, seq<Key>>, target: Key, keys: seq<Key>)
    requires AllNamed(digest, sources) && Names(digest, target, keys)
    ensures AllNamed(digest, sources[target := keys])
  {
  }

  /** The target of a call is new, or was made from the same read set. */
  lemma TargetIsFree(digest: multiset<Key> -> string, sources: map<Key, seq<Key>>, partition: Key, keys: seq<Key>,
        target: Key, used: set<multiset<Key>>)
    requires used == ReadSets(sources) + {multiset(keys)} && CollisionFree(digest, used) && AllNamed(digest, sources)
    requires Ordered(keys) && NameStart(partition) == |partition|
    requires target == CompactedKey(partition, digest(multiset(keys)))
    ensures (target in sources ==> sources[target] == keys) && AllNamed(digest, sources[target := keys])
  {
    IsNamed(digest, target, partition, keys);
    if target in sources {
      IsReadSet(sources, keys, used, target);
      NameTells(digest, used, target, sources[target], keys);
    }
    StaysNamed(digest, sources, target, keys);
  }

  /** A call leaves the objects in place that other calls have made: it overwrites only
      what the same read set of the same partition was compacted into, and deletes only
      originals. */
  lemma CallLeavesOthers(digest: multiset<Key> -> string, objects: Objects, p: Key, a: seq<Key>, q: Key, b: seq<Key>,
        merged: seq<Event>, outcome: Outcome)
    requires CollisionFree(digest, {multiset(a), multiset(b)}) && NameStart(p) == |p| && NameStart(q) == |q|
    requires (p, multiset(a)) != (q, multiset(b)) && forall k :: k in b ==> !IsCompacted(k)
    requires outcome.Swept? ==> forall k :: k in outcome.deleted ==> k in b
    ensures var c := CompactedKey(p, digest(multiset(a)));
            var after := BucketAfter(objects, CompactedKey(q, digest(multiset(b))), merged, outcome);
            c in objects ==> c in after && after[c] == objects[c]
  {
    var d, e := digest(multiset(a)), digest(multiset(b));
    CompactedKeyIsMarked(p, d);
    if CompactedKey(p, d) == CompactedKey(q, e) {
      CompactedKeyTells(p, q, d, e);
    }
  }

  lemma TargetIsOwned(partition: Key, tenant: string, digest: string)
    requires NoSlash(tenant) && NoSlash(digest)
    requires StartsWith(partition, ListingPrefix(tenant)) && NameStart(partition) == |partition|
    ensures var target := CompactedKey(partition, digest); IsCompacted(target) && TenantOf(target) == tenant
  {
    var prefix, target := ListingPrefix(tenant), CompactedKey(partition, digest);
    CompactedKeyIsMarked(partition, digest);
    assert target[..|prefix|] == partition[..|prefix|];
    ListedIsOwned(target, tenant);
  }

  /** The protocol does what it is for: two originals that landed can end up merged and
      gone, with their events in the compacted object. */
  lemma OriginalsCanGo(n: Naming, a: Key, b: Key, target: Key, e: Event, f: Event) returns (start: State, t: State)
    requires a != b && a != "" && b != "" && !n.compacted(a) && !n.compacted(b) && n.compacted(target)
    requires n.tenantOf(a) == n.tenantOf(b) == n.tenantOf(target) && IdsAgree({e, f})
    ensures Init(n, start) && Run(Steps(n), start, t) && a in start.objects && b in start.objects
    ensures a !in t.objects && b !in t.objects && target in t.objects && e in t.objects[target]
            && f in t.objects[target]
  {
    var keys, landed := [a, b], map[a := [e], b := [f]];
    start := State(landed, [], map[], landed, map[]);
    var job := Job(n.tenantOf(a), keys, target, Reading, 0);
    forall t, x | x in Everything(n, landed, t) ensures x in {e, f} {
      var k :| k in landed && x in landed[k];
      assert landed[k] == [e] || landed[k] == [f];
    }
    InitIsInv(n, start);
    CallIsRun(n, start, 0, job, Swept(keys));
    t := After(start, job, Merged(landed, keys), Swept(keys));
    MergedHolds(n, start, job.tenant, keys, a, e);
    MergedHolds(n, start, job.tenant, keys, b, f);
  }
}
