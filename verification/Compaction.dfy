/**
  Archive compaction (services/api/src/archive/compaction-sweep.ts) as a step
  relation: any number of compaction jobs, in any number of processes, read,
  PUT, repoint and delete while objects keep landing and the consumer keeps
  ingesting, and any job can stop for good between (or inside) any two of its
  steps.
*/
module Compaction {
  import opened Base
  import opened Keys
  import opened Runs

  /** A parseable line of an object: its `event_id` when that is a string, and the rest. */
  datatype Event = Event(id: Option<string>, body: string)

  /** A row of log_metadata, as far as the archive is concerned. */
  datatype Row = Row(tenant: string, ref: Key, event: Event)

  type Objects = map<Key, seq<Event>>

  // ------------------------------------------------------------------- the merge

  /** What deduplication keeps: the first event of each string `event_id`, and
      every event without one. */
  function Deduped(events: seq<Event>, seen: set<string>): seq<Event> {
    if events == [] then []
    else
      var id := events[0].id;
      if id.Some? && id.value in seen then Deduped(events[1..], seen)
      else [events[0]] + Deduped(events[1..], if id.Some? then seen + {id.value} else seen)
  }

  function EventsOf(objects: Objects, keys: seq<Key>): seq<Event>
    requires forall k :: k in keys ==> k in objects
  {
    if keys == [] then [] else objects[keys[0]] + EventsOf(objects, keys[1..])
  }

  /** The events of the compacted object. */
  function Merged(objects: Objects, keys: seq<Key>): seq<Event>
    requires forall k :: k in keys ==> k in objects
  {
    Deduped(EventsOf(objects, keys), {})
  }

  /** Equal `event_id` means equal event. */
  ghost predicate IdsAgree(events: set<Event>) {
    forall e, f :: e in events && f in events && e.id.Some? && e.id == f.id ==> e == f
  }

  function SetOf(events: seq<Event>): set<Event> { set e | e in events }

  lemma {:induction false} DedupedIsSubset(events: seq<Event>, seen: set<string>)
    ensures forall e :: e in Deduped(events, seen) ==> e in events
  {
    if events != [] {
      DedupedIsSubset(events[1..], seen);
      DedupedIsSubset(events[1..], if events[0].id.Some? then seen + {events[0].id.value} else seen);
    }
  }

  /** Every event is kept, or an event of the same id is kept or was seen. */
  lemma {:induction false} DedupedCovers(events: seq<Event>, seen: set<string>, e: Event)
    requires e in events
    ensures e in Deduped(events, seen)
            || (e.id.Some? && (e.id.value in seen || exists f :: f in Deduped(events, seen) && f.id == e.id))
  {
    var first := events[0];
    var seen' := if first.id.Some? then seen + {first.id.value} else seen;
    if first.id.Some? && first.id.value in seen {
      if e in events[1..] {
        DedupedCovers(events[1..], seen, e);
      }
    } else {
      assert Deduped(events, seen) == [first] + Deduped(events[1..], seen');
      if e in events[1..] {
        DedupedCovers(events[1..], seen', e);
        if e.id.Some? && e.id.value in seen' && e.id.value !in seen {
          assert first in Deduped(events, seen) && first.id == e.id;
        }
      }
    }
  }

  /** No two kept events share an id, and none has an id seen before. */
  lemma {:induction false} DedupedIdsAreFresh(events: seq<Event>, seen: set<string>)
    ensures forall e :: e in Deduped(events, seen) && e.id.Some? ==> e.id.value !in seen
    ensures IdsAgree(SetOf(Deduped(events, seen)))
  {
    if events != [] {
      var first := events[0];
      var seen' := if first.id.Some? then seen + {first.id.value} else seen;
      DedupedIdsAreFresh(events[1..], seen);
      DedupedIdsAreFresh(events[1..], seen');
    }
  }

  /** The compacted object is a superset of its sources exactly when equal ids
      mean equal events among them. */
  lemma MergeKeepsAll(events: seq<Event>)
    ensures (forall e :: e in events ==> e in Deduped(events, {})) <==> IdsAgree(SetOf(events))
  {
    var kept := Deduped(events, {});
    DedupedIsSubset(events, {});
    DedupedIdsAreFresh(events, {});
    if IdsAgree(SetOf(events)) {
      forall e | e in events ensures e in kept {
        DedupedCovers(events, {}, e);
        if f :| f in kept && e.id.Some? && f.id == e.id {
          assert f in SetOf(events) && e in SetOf(events);
        }
      }
    }
    if forall e :: e in events ==> e in kept {
      assert SetOf(events) == SetOf(kept);
    }
  }

  lemma {:induction false} InEventsOf(objects: Objects, keys: seq<Key>, e: Event)
    requires forall k :: k in keys ==> k in objects
    ensures e in EventsOf(objects, keys) <==> exists k :: k in keys && e in objects[k]
  {
    if keys != [] {
      InEventsOf(objects, keys[1..], e);
    }
  }

  // ------------------------------------------------------------------ the system

  datatype Phase = Reading | Stored | Mutating | Repointed

  /** A compaction in progress: the readable sources, the target, how far it got, and how
      many rows there were when its mutation was submitted: only those does it rewrite. */
  datatype Job = Job(tenant: string, keys: seq<Key>, target: Key, phase: Phase, upto: nat)

  /** The bucket and the table, the jobs in memory, and two records of the past:
      every object ever landed, and the sources of every compacted key. */
  datatype State = State(objects: Objects, rows: seq<Row>, jobs: map<nat, Job>, landed: Objects,
      sources: map<Key, seq<Key>>)

  /** How keys are read: which ones carry the compaction marker, and whose they are. */
  datatype Naming = Naming(compacted: Key -> bool, tenantOf: Key -> string)

  /** All events of a tenant's objects. */
  function Everything(n: Naming, objects: Objects, tenant: string): set<Event> {
    set k, e | k in objects && n.tenantOf(k) == tenant && e in objects[k] :: e
  }

  ghost predicate TenantsAgree(n: Naming, objects: Objects) {
    forall t :: IdsAgree(Everything(n, objects, t))
  }

  /** Repointing rewrites the rows of one tenant that name one of `keys`, among those
      that were there when the mutation was submitted: all of them, or the ones at the
      positions `which` that the mutation has reached. */
  function Repoint(rows: seq<Row>, job: Job, all: bool, which: set<nat>): (out: seq<Row>)
    ensures |out| == |rows|
    ensures forall i {:trigger out[i]} :: 0 <= i < |rows| ==>
              out[i] == if (all || i in which) && i < job.upto && rows[i].tenant == job.tenant
                  && rows[i].ref in job.keys
                        then rows[i].(ref := job.target) else rows[i]
  {
    seq(|rows|, i requires 0 <= i < |rows| =>
      if (all || i in which) && i < job.upto && rows[i].tenant == job.tenant && rows[i].ref in job.keys
      then rows[i].(ref := job.target) else rows[i])
  }

  /** A row that names a key names one of its own tenant. */
  predicate Owned(n: Naming, row: Row) { row.ref == "" || row.tenant == n.tenantOf(row.ref) }

  datatype Step =
    | Land(key: Key, events: seq<Event>)          // a new object is archived
    | Ingest(key: Key, events: seq<Event>)        // the consumer inserts rows for an object
    | OtherRow(row: Row)                          // a row that names no archived object
    | Start(id: nat, job: Job)                    // a job has read its sources
    | Put(id: nat)                                // the compacted object is written
    | Submit(id: nat)                             // the mutation is submitted
    | RepointSome(id: nat, which: set<nat>)       // the mutation has reached some rows; it may outlive its caller
    | RepointAll(id: nat)                         // the mutation has returned
    | Delete(id: nat, key: Key)                   // one original is deleted
    | Stop(id: nat)                               // the job ends: finished, failed or crashed

  /** A job that has submitted its mutation and has a key among its sources. */
  ghost predicate Rewriting(s: State, key: Key) {
    exists j :: j in s.jobs && s.jobs[j].phase in {Mutating, Repointed} && key in s.jobs[j].keys
  }

  /** The hypotheses of the environment are the guards of Land (fresh keys, equal
      ids of a tenant mean equal events), Ingest (no original is re-ingested between
      the submission of the mutation and the end of its job) and Start (the digest of
      the source list does not collide). */
  ghost predicate Enabled(n: Naming, s: State, step: Step) {
    match step
    case Land(key, events) =>
      key != "" && key !in s.landed && !n.compacted(key) && TenantsAgree(n, s.landed[key := events])
    case Ingest(key, events) =>
      key in s.landed && !Rewriting(s, key)
    case OtherRow(row) => row.ref !in s.landed && Owned(n, row)
    case Start(id, job) =>
      && id !in s.jobs && job.phase == Reading && n.compacted(job.target) && n.tenantOf(job.target) == job.tenant
      && (forall k :: k in job.keys ==> k in s.landed && !n.compacted(k) && n.tenantOf(k) == job.tenant)
      && (job.target in s.sources ==> s.sources[job.target] == job.keys)
    case Put(id) => id in s.jobs && s.jobs[id].phase == Reading && forall k :: k in s.jobs[id].keys ==> k in s.landed
    case Submit(id) => id in s.jobs && s.jobs[id].phase == Stored
    case RepointSome(id, which) => id in s.jobs && s.jobs[id].phase == Mutating
    case RepointAll(id) => id in s.jobs && s.jobs[id].phase == Mutating
    case Delete(id, key) => id in s.jobs && s.jobs[id].phase == Repointed && key in s.jobs[id].keys
    case Stop(id) => id in s.jobs
  }

  function NewRows(n: Naming, key: Key, events: seq<Event>): (rows: seq<Row>)
    ensures |rows| == |events|
    ensures forall i :: 0 <= i < |rows| ==> rows[i] == Row(n.tenantOf(key), key, events[i])
  {
    seq(|events|, i requires 0 <= i < |events| => Row(n.tenantOf(key), key, events[i]))
  }

  ghost function Next(n: Naming, s: State, step: Step): State
    requires Enabled(n, s, step)
  {
    match step
    case Land(key, events) => s.(objects := s.objects[key := events], landed := s.landed[key := events])
    case Ingest(key, events) => s.(rows := s.rows + NewRows(n, key, events))
    case OtherRow(row) => s.(rows := s.rows + [row])
    case Start(id, job) => s.(jobs := s.jobs[id := job], sources := s.sources[job.target := job.keys])
    case Put(id) =>
      var job := s.jobs[id];
      s.(objects := s.objects[job.target := Merged(s.landed, job.keys)], jobs := s.jobs[id := job.(phase := Stored)])
    case Submit(id) => s.(jobs := s.jobs[id := s.jobs[id].(phase := Mutating, upto := |s.rows|)])
    case RepointSome(id, which) =>
      var job := s.jobs[id];
      s.(rows := Repoint(s.rows, job, false, which))
    case RepointAll(id) =>
      var job := s.jobs[id];
      s.(rows := Repoint(s.rows, job, true, {}),
         jobs := s.jobs[id := job.(phase := Repointed)])
    case Delete(id, key) => s.(objects := s.objects - {key})
    case Stop(id) => s.(jobs := s.jobs - {id})
  }

  // ------------------------------------------------------------------- invariant

  /** A compacted object holds the merge of its sources as they landed. */
  ghost predicate CompactedOk(s: State, c: Key) {
    && c in s.sources
    && (forall k :: k in s.sources[c] ==> k in s.landed)
    && c in s.objects && s.objects[c] == Merged(s.landed, s.sources[c])
  }

  ghost predicate JobOk(n: Naming, s: State, job: Job) {
    && n.compacted(job.target) && n.tenantOf(job.target) == job.tenant
    && job.target in s.sources && s.sources[job.target] == job.keys
    && (forall k :: k in job.keys ==> k in s.landed && !n.compacted(k) && n.tenantOf(k) == job.tenant)
    && (job.phase != Reading ==> CompactedOk(s, job.target))
    && (job.phase == Mutating ==> job.upto <= |s.rows|
                                  && forall i :: job.upto <= i < |s.rows| ==> s.rows[i].ref !in job.keys)
    && (job.phase == Repointed ==> forall i :: 0 <= i < |s.rows| ==> s.rows[i].ref !in job.keys)
  }

  /** A landed object is still there, or a compacted object made from it is. */
  ghost predicate Held(n: Naming, s: State, k: Key) {
    k in s.objects || exists c :: n.compacted(c) && CompactedOk(s, c) && k in s.sources[c]
  }

  /** A compacted object is made from its own tenant's. */
  ghost predicate SourcesOk(n: Naming, s: State) {
    forall c, k :: c in s.sources && k in s.sources[c] ==> n.tenantOf(k) == n.tenantOf(c)
  }

  ghost predicate Inv(n: Naming, s: State) {
    && TenantsAgree(n, s.landed) && SourcesOk(n, s)
    && (forall k :: k in s.landed ==> k != "" && !n.compacted(k) && Held(n, s, k))
    && (forall k ::
          k in s.objects
          ==> if n.compacted(k) then CompactedOk(s, k) else k in s.landed && s.objects[k] == s.landed[k])
    && (forall j :: j in s.jobs ==> JobOk(n, s, s.jobs[j]))
    && (forall i :: 0 <= i < |s.rows| ==> Owned(n, s.rows[i]))
  }

  lemma {:induction false} MergedFrame(a: Objects, b: Objects, keys: seq<Key>)
    requires forall k :: k in keys ==> k in a && k in b && a[k] == b[k]
    ensures EventsOf(a, keys) == EventsOf(b, keys)
  {
    if keys != [] {
      MergedFrame(a, b, keys[1..]);
    }
  }

  /** What was compacted stays compacted when the records only grow. */
  lemma CompactedStays(s: State, t: State, c: Key)
    requires CompactedOk(s, c) && c in t.objects && t.objects[c] == s.objects[c]
    requires c in t.sources && t.sources[c] == s.sources[c]
    requires forall k :: k in s.landed ==> k in t.landed && t.landed[k] == s.landed[k]
    ensures CompactedOk(t, c)
  {
    MergedFrame(s.landed, t.landed, s.sources[c]);
  }

  /** The bucket keeps what is compacted, so what was held stays held. */
  lemma StaysHeld(n: Naming, s: State, t: State, k: Key)
    requires Held(n, s, k) && (k in s.objects ==> k in t.objects)
    requires forall c :: n.compacted(c) && CompactedOk(s, c) ==> CompactedOk(t, c) && t.sources[c] == s.sources[c]
    ensures Held(n, t, k)
  {
  }

  lemma LandKeepsCompacted(n: Naming, s: State, key: Key, events: seq<Event>, c: Key)
    requires Enabled(n, s, Land(key, events)) && n.compacted(c) && CompactedOk(s, c)
    requires Inv(n, s)
    ensures CompactedOk(Next(n, s, Land(key, events)), c)
  {
    CompactedStays(s, Next(n, s, Land(key, events)), c);
  }

  lemma LandKeepsInv(n: Naming, s: State, key: Key, events: seq<Event>)
    requires Inv(n, s) && Enabled(n, s, Land(key, events))
    ensures Inv(n, Next(n, s, Land(key, events)))
  {
    var t := Next(n, s, Land(key, events));
    forall c | n.compacted(c) && CompactedOk(s, c) ensures CompactedOk(t, c) {
      LandKeepsCompacted(n, s, key, events, c);
    }
    forall k | k in t.landed ensures Held(n, t, k) {
      if k != key {
        StaysHeld(n, s, t, k);
      }
    }
    forall j | j in t.jobs ensures JobOk(n, t, t.jobs[j]) {
      assert JobOk(n, s, s.jobs[j]);
    }
  }

  lemma StartKeepsCompacted(n: Naming, s: State, id: nat, job: Job, c: Key)
    requires Enabled(n, s, Start(id, job)) && CompactedOk(s, c)
    ensures var t := Next(n, s, Start(id, job)); CompactedOk(t, c) && t.sources[c] == s.sources[c]
  {
    CompactedStays(s, Next(n, s, Start(id, job)), c);
  }

  lemma StartKeepsJob(n: Naming, s: State, id: nat, job: Job, j: nat)
    requires Inv(n, s) && Enabled(n, s, Start(id, job)) && j in Next(n, s, Start(id, job)).jobs
    ensures JobOk(n, Next(n, s, Start(id, job)), Next(n, s, Start(id, job)).jobs[j])
  {
    if j != id {
      assert JobOk(n, s, s.jobs[j]);
      if s.jobs[j].phase != Reading {
        StartKeepsCompacted(n, s, id, job, s.jobs[j].target);
      }
    }
  }

  lemma StartKeepsSources(n: Naming, s: State, id: nat, job: Job)
    requires SourcesOk(n, s) && Enabled(n, s, Start(id, job))
    ensures SourcesOk(n, Next(n, s, Start(id, job)))
  {
  }

  lemma StartKeepsInv(n: Naming, s: State, id: nat, job: Job)
    requires Inv(n, s) && Enabled(n, s, Start(id, job))
    ensures Inv(n, Next(n, s, Start(id, job)))
  {
    var t := Next(n, s, Start(id, job));
    StartKeepsSources(n, s, id, job);
    forall c | CompactedOk(s, c) ensures CompactedOk(t, c) && t.sources[c] == s.sources[c] {
      StartKeepsCompacted(n, s, id, job, c);
    }
    forall k | k in t.landed ensures Held(n, t, k) {
      StaysHeld(n, s, t, k);
    }
    forall j | j in t.jobs ensures JobOk(n, t, t.jobs[j]) {
      StartKeepsJob(n, s, id, job, j);
    }
  }

  lemma PutKeepsInv(n: Naming, s: State, id: nat)
    requires Inv(n, s) && Enabled(n, s, Put(id))
    ensures Inv(n, Next(n, s, Put(id)))
  {
    var t := Next(n, s, Put(id));
    var job := s.jobs[id];
    assert JobOk(n, s, job);
    assert CompactedOk(t, job.target);
    forall c | CompactedOk(s, c) ensures CompactedOk(t, c) {
      if c != job.target {
        CompactedStays(s, t, c);
      }
    }
    forall k | k in t.landed ensures Held(n, t, k) {
      assert Held(n, s, k);
    }
    forall j | j in t.jobs ensures JobOk(n, t, t.jobs[j]) {
      assert JobOk(n, s, s.jobs[j]);
    }
  }

  lemma HeldAfterDelete(n: Naming, s: State, t: State, job: Job, key: Key, k: Key)
    requires Held(n, s, k) && t.objects == s.objects - {key} && t.sources == s.sources
    requires JobOk(n, s, job) && job.phase == Repointed && key in job.keys
    requires forall c :: n.compacted(c) && CompactedOk(s, c) ==> CompactedOk(t, c)
    ensures Held(n, t, k)
  {
    if k == key {
      assert n.compacted(job.target) && CompactedOk(t, job.target) && k in t.sources[job.target];
    } else {
      StaysHeld(n, s, t, k);
    }
  }

  lemma DeleteKeepsInv(n: Naming, s: State, id: nat, key: Key)
    requires Inv(n, s) && Enabled(n, s, Delete(id, key))
    ensures Inv(n, Next(n, s, Delete(id, key)))
  {
    var t := Next(n, s, Delete(id, key));
    var job := s.jobs[id];
    assert JobOk(n, s, job);
    forall c | n.compacted(c) && CompactedOk(s, c) ensures CompactedOk(t, c) {
      CompactedStays(s, t, c);
    }
    forall k | k in t.landed ensures Held(n, t, k) {
      HeldAfterDelete(n, s, t, job, key, k);
    }
    forall j | j in t.jobs ensures JobOk(n, t, t.jobs[j]) {
      assert JobOk(n, s, s.jobs[j]);
    }
  }

  /** Nothing about the bucket changes. */
  lemma BucketStays(n: Naming, s: State, t: State)
    requires Inv(n, s) && t.objects == s.objects && t.landed == s.landed && t.sources == s.sources
    ensures forall c :: CompactedOk(s, c) ==> CompactedOk(t, c)
    ensures forall k :: k in t.landed ==> Held(n, t, k)
  {
    forall k | k in t.landed ensures Held(n, t, k) {
      assert Held(n, s, k);
    }
  }

  lemma NewRowsKeepInv(n: Naming, s: State, t: State)
    requires Inv(n, s) && t == s.(rows := t.rows) && |t.rows| >= |s.rows|
    requires forall i :: 0 <= i < |s.rows| ==> t.rows[i] == s.rows[i]
    requires forall i :: |s.rows| <= i < |t.rows| ==> Owned(n, t.rows[i])
    requires forall i :: |s.rows| <= i < |t.rows| ==> !Rewriting(s, t.rows[i].ref)
    ensures Inv(n, t)
  {
    BucketStays(n, s, t);
    forall j | j in t.jobs ensures JobOk(n, t, t.jobs[j]) {
      assert JobOk(n, s, s.jobs[j]);
      NewRowsKeepJob(n, s, t, j);
    }
  }

  lemma NewRowsKeepJob(n: Naming, s: State, t: State, j: nat)
    requires j in s.jobs && JobOk(n, s, s.jobs[j]) && t == s.(rows := t.rows) && |t.rows| >= |s.rows|
    requires forall i :: 0 <= i < |s.rows| ==> t.rows[i] == s.rows[i]
    requires forall i :: |s.rows| <= i < |t.rows| ==> !Rewriting(s, t.rows[i].ref)
    ensures JobOk(n, t, s.jobs[j])
  {
    var job := s.jobs[j];
    if job.phase in {Mutating, Repointed} {
      forall i | |s.rows| <= i < |t.rows| ensures t.rows[i].ref !in job.keys {
        assert !Rewriting(s, t.rows[i].ref);
      }
    }
  }

  lemma IngestKeepsInv(n: Naming, s: State, key: Key, events: seq<Event>)
    requires Inv(n, s) && Enabled(n, s, Ingest(key, events))
    ensures Inv(n, Next(n, s, Ingest(key, events)))
  {
    NewRowsKeepInv(n, s, Next(n, s, Ingest(key, events)));
  }

  lemma OtherRowKeepsInv(n: Naming, s: State, row: Row)
    requires Inv(n, s) && Enabled(n, s, OtherRow(row))
    ensures Inv(n, Next(n, s, OtherRow(row)))
  {
    forall j | j in s.jobs ensures row.ref !in s.jobs[j].keys {
      assert JobOk(n, s, s.jobs[j]);
    }
    NewRowsKeepInv(n, s, Next(n, s, OtherRow(row)));
  }

  /** A repointed row names the target, which is no job's source. */
  lemma RepointedRows(n: Naming, s: State, t: State, job: Job, all: bool, which: set<nat>, other: Job)
    requires JobOk(n, s, job) && JobOk(n, s, other)
    requires t.rows == Repoint(s.rows, job, all, which)
    requires t.objects == s.objects && t.landed == s.landed && t.sources == s.sources
    ensures JobOk(n, t, other)
  {
    forall i | 0 <= i < |s.rows| && s.rows[i].ref !in other.keys ensures t.rows[i].ref !in other.keys {
    }
  }

  lemma RepointedAreOwned(n: Naming, s: State, job: Job, all: bool, which: set<nat>, i: nat)
    requires JobOk(n, s, job) && i < |s.rows| && Owned(n, s.rows[i])
    ensures Owned(n, Repoint(s.rows, job, all, which)[i])
  {
  }

  lemma SubmitKeepsInv(n: Naming, s: State, id: nat)
    requires Inv(n, s) && Enabled(n, s, Submit(id))
    ensures Inv(n, Next(n, s, Submit(id)))
  {
    var t := Next(n, s, Submit(id));
    BucketStays(n, s, t);
    forall j | j in t.jobs ensures JobOk(n, t, t.jobs[j]) {
      assert JobOk(n, s, s.jobs[j]);
    }
  }

  lemma RepointSomeKeepsInv(n: Naming, s: State, id: nat, which: set<nat>)
    requires Inv(n, s) && Enabled(n, s, RepointSome(id, which))
    ensures Inv(n, Next(n, s, RepointSome(id, which)))
  {
    var t := Next(n, s, RepointSome(id, which));
    var job := s.jobs[id];
    BucketStays(n, s, t);
    assert JobOk(n, s, job);
    forall i: nat | i < |t.rows| ensures Owned(n, t.rows[i]) {
      RepointedAreOwned(n, s, job, false, which, i);
    }
    forall j | j in t.jobs ensures JobOk(n, t, t.jobs[j]) {
      var other := s.jobs[j];
      assert JobOk(n, s, other);
      RepointedRows(n, s, t, job, false, which, other);
    }
  }

  lemma RepointAllKeepsInv(n: Naming, s: State, id: nat)
    requires Inv(n, s) && Enabled(n, s, RepointAll(id))
    ensures Inv(n, Next(n, s, RepointAll(id)))
  {
    var t := Next(n, s, RepointAll(id));
    var job := s.jobs[id];
    BucketStays(n, s, t);
    assert JobOk(n, s, job);
    forall i | 0 <= i < |t.rows| ensures t.rows[i].ref !in job.keys && Owned(n, t.rows[i]) {
      assert Owned(n, s.rows[i]);
    }
    forall j | j in t.jobs ensures JobOk(n, t, t.jobs[j]) {
      if j != id {
        assert JobOk(n, s, s.jobs[j]);
        RepointedRows(n, s, t, job, true, {}, s.jobs[j]);
      }
    }
  }

  lemma StopKeepsInv(n: Naming, s: State, id: nat)
    requires Inv(n, s) && Enabled(n, s, Stop(id))
    ensures Inv(n, Next(n, s, Stop(id)))
  {
    var t := Next(n, s, Stop(id));
    BucketStays(n, s, t);
    forall j | j in t.jobs ensures JobOk(n, t, t.jobs[j]) {
      assert JobOk(n, s, s.jobs[j]);
    }
  }

  lemma StepKeepsInv(n: Naming, s: State, step: Step)
    requires Inv(n, s) && Enabled(n, s, step)
    ensures Inv(n, Next(n, s, step))
  {
    match step
    case Land(key, events) => LandKeepsInv(n, s, key, events);
    case Start(id, job) => StartKeepsInv(n, s, id, job);
    case Put(id) => PutKeepsInv(n, s, id);
    case Delete(id, key) => DeleteKeepsInv(n, s, id, key);
    case Ingest(key, events) => IngestKeepsInv(n, s, key, events);
    case OtherRow(row) => OtherRowKeepsInv(n, s, row);
    case Submit(id) => SubmitKeepsInv(n, s, id);
    case RepointSome(id, which) => RepointSomeKeepsInv(n, s, id, which);
    case RepointAll(id) => RepointAllKeepsInv(n, s, id);
    case Stop(id) => StopKeepsInv(n, s, id);
  }

  // -------------------------------------------------------------------- guarantees

  /** Every event that ever landed is in some live object. */
  lemma NoEventIsLost(n: Naming, s: State, k: Key, e: Event) returns (c: Key)
    requires Inv(n, s) && k in s.landed && e in s.landed[k]
    ensures c in s.objects && e in s.objects[c]
  {
    assert Held(n, s, k);
    if k in s.objects {
      c := k;
    } else {
      c :| n.compacted(c) && CompactedOk(s, c) && k in s.sources[c];
      MergedHolds(n, s, n.tenantOf(c), s.sources[c], k, e);
    }
  }

  lemma MergedHolds(n: Naming, s: State, tenant: string, keys: seq<Key>, k: Key, e: Event)
    requires TenantsAgree(n, s.landed) && (forall x :: x in keys ==> x in s.landed && n.tenantOf(x) == tenant)
    requires k in keys && e in s.landed[k]
    ensures e in Merged(s.landed, keys)
  {
    var events := EventsOf(s.landed, keys);
    InEventsOf(s.landed, keys, e);
    forall f | f in SetOf(events) ensures f in Everything(n, s.landed, tenant) {
      InEventsOf(s.landed, keys, f);
    }
    assert IdsAgree(Everything(n, s.landed, tenant));
    MergeKeepsAll(events);
  }

  /** The row names a live object that holds its event. */
  predicate Good(s: State, i: nat) {
    i < |s.rows| && s.rows[i].ref in s.objects && s.rows[i].event in s.objects[s.rows[i].ref]
  }

  /** No step breaks a row that could be drilled into. */
  lemma StepKeepsGood(n: Naming, s: State, step: Step, i: nat)
    requires Inv(n, s) && Enabled(n, s, step) && Good(s, i)
    ensures Good(Next(n, s, step), i)
  {
    var ref, e := s.rows[i].ref, s.rows[i].event;
    match step
    case Land(_, _) =>
    case Ingest(_, _) =>
    case OtherRow(_) =>
    case Start(_, _) =>
    case Submit(_) =>
    case Stop(_) =>
    case Put(id) =>
      assert JobOk(n, s, s.jobs[id]);
      if ref == s.jobs[id].target {
        assert CompactedOk(s, ref);
      }
    case RepointSome(id, which) => RepointKeepsGood(n, s, s.jobs[id], false, which, i);
    case RepointAll(id) => RepointKeepsGood(n, s, s.jobs[id], true, {}, i);
    case Delete(id, key) => assert JobOk(n, s, s.jobs[id]);
  }

  lemma RepointKeepsGood(n: Naming, s: State, job: Job, all: bool, which: set<nat>, i: nat)
    requires Inv(n, s) && JobOk(n, s, job) && job.phase != Reading && Good(s, i)
    ensures Good(s.(rows := Repoint(s.rows, job, all, which)), i)
  {
    var ref, e := s.rows[i].ref, s.rows[i].event;
    if ref in job.keys {
      assert s.objects[ref] == s.landed[ref];
      MergedHolds(n, s, job.tenant, job.keys, ref, e);
    }
  }

  /** Writing the compacted object again changes nothing in the bucket. */
  lemma PutIsIdempotent(n: Naming, s: State, id: nat)
    requires Inv(n, s) && Enabled(n, s, Put(id)) && s.jobs[id].target in s.objects
    ensures Next(n, s, Put(id)).objects == s.objects
  {
    assert JobOk(n, s, s.jobs[id]);
    assert CompactedOk(s, s.jobs[id].target);
  }

  // -------------------------------------------------------------------------- runs

  ghost predicate Init(n: Naming, s: State) {
    && s.jobs == map[] && s.sources == map[] && s.objects == s.landed
    && (forall k :: k in s.landed ==> k != "" && !n.compacted(k))
    && (forall i :: 0 <= i < |s.rows| ==> Owned(n, s.rows[i]))
    && TenantsAgree(n, s.landed)
  }

  ghost predicate Moves(n: Naming, s: State, t: State) {
    exists step :: Enabled(n, s, step) && t == Next(n, s, step)
  }

  ghost function Steps(n: Naming): (State, State) -> bool { (s, t) => Moves(n, s, t) }

  lemma InitIsInv(n: Naming, s: State)
    requires Init(n, s)
    ensures Inv(n, s)
  {
  }

  /** What holds across one move. */
  ghost predicate Later(s: State, t: State) {
    && (forall row: nat :: Good(s, row) ==> Good(t, row))
    && (forall k :: k in s.landed ==> k in t.landed && t.landed[k] == s.landed[k])
  }

  lemma StepIsLater(n: Naming, s: State, step: Step)
    requires Inv(n, s) && Enabled(n, s, step)
    ensures Later(s, Next(n, s, step))
  {
    forall row: nat | Good(s, row) ensures Good(Next(n, s, step), row) {
      StepKeepsGood(n, s, step, row);
    }
  }

  lemma MoveKeeps(n: Naming, s: State, t: State)
    requires Inv(n, s) && Moves(n, s, t)
    ensures Inv(n, t) && Later(s, t)
  {
    var step :| Enabled(n, s, step) && t == Next(n, s, step);
    StepKeepsInv(n, s, step);
    StepIsLater(n, s, step);
  }

  lemma RunKeepsAll(n: Naming, s: State, t: State)
    requires Inv(n, s) && Run(Steps(n), s, t)
    ensures Inv(n, t) && Later(s, t)
  {
    var steps, inv := Steps(n), (u: State) => Inv(n, u) && Later(s, u);
    forall a, b {:trigger steps(a, b)} | inv(a) && steps(a, b) ensures inv(b) {
      MoveKeeps(n, a, b);
    }
    RunKeeps(steps, inv, s, t);
  }

  /** Crash safety of compaction, over every run: whatever was in an object at
      some point is in a live object at every later point, and a row that named a
      live object holding its event always does from then on. */
  lemma CompactionIsCrashSafe(n: Naming, start: State, s: State, t: State)
    requires Init(n, start) && Run(Steps(n), start, s) && Run(Steps(n), s, t)
    ensures forall k, e :: k in s.objects && e in s.objects[k] ==> exists c :: c in t.objects && e in t.objects[c]
    ensures forall row: nat :: Good(s, row) ==> Good(t, row)
  {
    InitIsInv(n, start);
    RunKeepsAll(n, start, s);
    RunKeepsAll(n, s, t);
    forall k, e | k in s.objects && e in s.objects[k]
      ensures exists c :: c in t.objects && e in t.objects[c]
    {
      var k' := SourceOf(n, s, k, e);
      var c := NoEventIsLost(n, t, k', e);
    }
  }

  /** Every event of a live object landed in some object. */
  lemma SourceOf(n: Naming, s: State, k: Key, e: Event) returns (k': Key)
    requires Inv(n, s) && k in s.objects && e in s.objects[k]
    ensures k' in s.landed && e in s.landed[k']
  {
    if n.compacted(k) {
      assert CompactedOk(s, k);
      var events := EventsOf(s.landed, s.sources[k]);
      DedupedIsSubset(events, {});
      InEventsOf(s.landed, s.sources[k], e);
      k' :| k' in s.sources[k] && e in s.landed[k'];
    } else {
      k' := k;
    }
  }

  // ------------------------------------------------- why ingestion must hold its hand

  /** One more row, of an event of a landed object, whatever is under way. */
  function Reingested(n: Naming, s: State, key: Key, e: Event): State {
    s.(rows := s.rows + [Row(n.tenantOf(key), key, e)])
  }

  /** A row that is inserted now for an original can be left dangling, in some run,
      exactly when a mutation that was submitted has the original among its sources, and
      so neither rewrites the row nor spares the original; or the original is gone. */
  lemma ReingestedDanglesIff(n: Naming, s: State, key: Key, e: Event)
    requires Inv(n, s) && key in s.landed && e in s.landed[key]
    ensures (exists t :: Run(Steps(n), Reingested(n, s, key, e), t) && !Good(t, |s.rows|))
       <==> Rewriting(s, key) || key !in s.objects
  {
    var r := Reingested(n, s, key, e);
    Nothing(Steps(n), r);
    if key !in s.objects {
      assert !Good(r, |s.rows|);
    } else if Rewriting(s, key) {
      var j :| j in s.jobs && s.jobs[j].phase in {Mutating, Repointed} && key in s.jobs[j].keys;
      assert JobOk(n, s, s.jobs[j]);
      var t := Dangling(n, s, r, key, e, j);
    } else {
      SparedIsGood(n, s, r, key, e);
    }
  }

  /** The mutation returns without having rewritten the row, and the original goes. */
  lemma Dangling(n: Naming, s: State, r: State, key: Key, e: Event, j: nat) returns (t: State)
    requires r == Reingested(n, s, key, e) && j in s.jobs && key in s.jobs[j].keys
    requires s.jobs[j].phase == Repointed || (s.jobs[j].phase == Mutating && s.jobs[j].upto <= |s.rows|)
    ensures Run(Steps(n), r, t) && !Good(t, |s.rows|)
  {
    Nothing(Steps(n), r);
    var u := r;
    if s.jobs[j].phase == Mutating {
      u := Next(n, r, RepointAll(j));
      assert Moves(n, r, u);
      Then(Steps(n), r, r, u);
    }
    assert u.rows[|s.rows|] == r.rows[|s.rows|];
    t := Next(n, u, Delete(j, key));
    assert Moves(n, u, t);
    Then(Steps(n), r, u, t);
  }

  lemma SparedIsGood(n: Naming, s: State, r: State, key: Key, e: Event)
    requires Inv(n, s) && key in s.landed && e in s.landed[key] && key in s.objects && !Rewriting(s, key)
    requires r == Reingested(n, s, key, e)
    ensures forall t :: Run(Steps(n), r, t) ==> Good(t, |s.rows|)
  {
    assert Owned(n, r.rows[|s.rows|]);
    NewRowsKeepInv(n, s, r);
    assert Good(r, |s.rows|);
    forall t | Run(Steps(n), r, t) ensures Good(t, |s.rows|) {
      RunKeepsAll(n, r, t);
    }
  }
}
