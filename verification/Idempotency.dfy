/**
  The result cache (services/api/src/pipeline/idempotency.ts): bounded, expiring, and
  never wrong about what was recorded.
*/
module Idempotency {
  import opened Base

  const TTL_MS: nat := 300_000
  const MAX_ENTRIES: nat := 10_000

  datatype Key = Key(tenant: string, batch: string)
  datatype Result = Result(accepted: nat, clustered: nat, unclustered: nat, newTemplates: nat)
  datatype Entry = Entry(key: Key, result: Result, expiry: nat)

  /** The entry of a key, in insertion order; a map keeps one per key. */
  function Find(entries: seq<Entry>, k: Key): Option<Entry> {
    if entries == [] then None else if entries[0].key == k then Some(entries[0]) else Find(entries[1..], k)
  }

  function Remove(entries: seq<Entry>, k: Key): seq<Entry> {
    if entries == [] then []
    else if entries[0].key == k then entries[1..]
    else [entries[0]] + Remove(entries[1..], k)
  }

  /** Setting a key keeps its place, or appends it. */
  function Put(entries: seq<Entry>, e: Entry): seq<Entry> {
    if entries == [] then [e]
    else if entries[0].key == e.key then [e] + entries[1..]
    else [entries[0]] + Put(entries[1..], e)
  }

  predicate OncePerKey(entries: seq<Entry>) {
    entries == [] || (Find(entries[1..], entries[0].key).None? && OncePerKey(entries[1..]))
  }

  lemma {:induction false} RemoveIs(entries: seq<Entry>, k: Key)
    requires OncePerKey(entries)
    ensures OncePerKey(Remove(entries, k))
    ensures forall x :: Find(Remove(entries, k), x) == if x == k then None else Find(entries, x)
    ensures |Remove(entries, k)| == |entries| - if Find(entries, k).Some? then 1 else 0
  {
    if entries != [] && entries[0].key != k {
      RemoveIs(entries[1..], k);
      assert Remove(entries, k)[1..] == Remove(entries[1..], k);
    }
  }

  lemma {:induction false} PutIs(entries: seq<Entry>, e: Entry)
    requires OncePerKey(entries)
    ensures OncePerKey(Put(entries, e))
    ensures forall x :: Find(Put(entries, e), x) == if x == e.key then Some(e) else Find(entries, x)
    ensures |Put(entries, e)| == |entries| + if Find(entries, e.key).Some? then 0 else 1
  {
    if entries != [] {
      assert ([e] + entries[1..])[1..] == entries[1..];
      if entries[0].key != e.key {
        PutIs(entries[1..], e);
        assert Put(entries, e)[1..] == Put(entries[1..], e);
      }
    } else {
      assert [e][1..] == [];
    }
  }

  function Order(entries: seq<Entry>): seq<Key> { seq(|entries|, i requires 0 <= i < |entries| => entries[i].key) }

  /** Setting keeps the order of insertion; a new key comes last. */
  lemma {:induction false} PutIsLast(entries: seq<Entry>, e: Entry)
    ensures Order(Put(entries, e)) == Order(entries) + if Find(entries, e.key).Some? then [] else [e.key]
  {
    if entries != [] && entries[0].key != e.key {
      PutIsLast(entries[1..], e);
      assert Order(entries) == [entries[0].key] + Order(entries[1..]);
      assert Order(Put(entries, e)) == [entries[0].key] + Order(Put(entries[1..], e));
    }
  }

  /** What was recorded last under a key. */
  function LastRecorded(log: seq<Entry>, k: Key): Option<Entry> {
    if log == [] then None
    else if log[|log| - 1].key == k then Some(log[|log| - 1])
    else LastRecorded(log[..|log| - 1], k)
  }

  lemma {:induction false} LastRecordedIs(log: seq<Entry>, k: Key, i: nat)
    requires i < |log| && log[i].key == k && forall j :: i < j < |log| ==> log[j].key != k
    ensures LastRecorded(log, k) == Some(log[i])
    decreases |log|
  {
    if i < |log| - 1 {
      LastRecordedIs(log[..|log| - 1], k, i);
    }
  }

  class IdempotencyCache {
    var entries: seq<Entry>
    ghost var log: seq<Entry>     // every result ever recorded, with its expiry

    constructor ()
      ensures Valid() && log == []
    {
      entries, log := [], [];
    }

    /** Never more than the maximum, and an entry is what was recorded last. */
    ghost predicate Valid()
      reads this
    {
      && |entries| <= MAX_ENTRIES && OncePerKey(entries)
      && forall k :: Find(entries, k).Some? ==> Find(entries, k) == LastRecorded(log, k)
    }

    /** A hit is the last result recorded under that key, and is not expired. */
    method GetCachedResult(k: Key, now: nat) returns (r: Option<Result>)
      requires Valid()
      modifies this`entries
      ensures Valid()
      ensures r.Some?
              ==> LastRecorded(log, k).Some? && r.value == LastRecorded(log, k).value.result
                  && now <= LastRecorded(log, k).value.expiry
      ensures Find(old(entries), k).Some? && now <= Find(old(entries), k).value.expiry ==> r.Some?
      ensures Find(entries, k) == if r.Some? then Find(old(entries), k) else None
      ensures forall x :: x != k ==> Find(entries, x) == Find(old(entries), x)
    {
      var entry := Find(entries, k);
      if entry.None? {
        return None;
      }
      if entry.value.expiry < now {
        RemoveIs(entries, k);
        entries := Remove(entries, k);
        return None;
      }
      r := Some(entry.value.result);
    }

    /** Record a result; when the cache is full, the entry inserted first goes. */
    method RecordResult(k: Key, result: Result, now: nat)
      requires Valid()
      modifies this
      ensures Valid() && log == old(log) + [Entry(k, result, now + TTL_MS)]
      ensures Find(entries, k) == Some(Entry(k, result, now + TTL_MS))
      ensures forall x :: x != k ==> Find(entries, x) == Find(old(entries), x)
                                     || (|old(entries)| == MAX_ENTRIES && x == old(entries)[0].key
                                         && Find(entries, x) == None)
      ensures var others := if |old(entries)| == MAX_ENTRIES then old(entries)[1..] else old(entries);
              Order(entries) == Order(others) + if Find(others, k).Some? then [] else [k]
    {
      if |entries| >= MAX_ENTRIES {
        RemoveIs(entries, entries[0].key);
        entries := Remove(entries, entries[0].key);
      }
      var e := Entry(k, result, now + TTL_MS);
      PutIs(entries, e);
      PutIsLast(entries, e);
      entries := Put(entries, e);
      assert (log + [e])[..|log|] == log;
      log := log + [e];
    }
  }
}
