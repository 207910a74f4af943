/**
  The reconcile sweep (services/api/src/archive/reconcile-sweep.ts): the paged
  listing after the watermark, the membership lookup, and the walk over one
  listing that counts misses, quarantines, and finds the new watermark.
*/
module Reconcile {
  import opened Base
  import opened Keys
  import opened Notify

  /** The order of a listing and the marker of compacted objects. */
  datatype Order = Order(less: (Key, Key) -> bool, compacted: Key -> bool)
  {
    predicate AtMost(a: Key, b: Key) { a == b || less(a, b) }
  }

  ghost predicate Total(o: Order) {
    && (forall a, b :: o.less(a, b) || a == b || o.less(b, a))
    && (forall a, b :: !(o.less(a, b) && o.less(b, a)) && !o.less(a, a))
    && (forall a, b, c :: o.less(a, b) && o.less(b, c) ==> o.less(a, c))
  }

  function ArchiveOrder(): Order { Order(Less, IsCompacted) }

  /** The lexical order of keys is total. */
  lemma ArchiveOrderIsTotal()
    ensures Total(ArchiveOrder())
  {
    forall a, b ensures Less(a, b) || a == b || Less(b, a)
                ensures !(Less(a, b) && Less(b, a)) && !Less(a, a) {
      LessIsTotal(a, b);
    }
    forall a, b, c | Less(a, b) && Less(b, c) ensures Less(a, c) {
      LessIsTransitive(a, b, c);
    }
  }

  type TotalOrder = o: Order | Total(o) ghost witness (ArchiveOrderIsTotal(); ArchiveOrder())

  ghost predicate Sorted(o: Order, keys: seq<Key>) {
    forall i, j :: 0 <= i < j < |keys| ==> o.less(keys[i], keys[j])
  }

  // ------------------------------------------------------------------- the listing

  /** The keys of a sorted bucket that come after a cursor. */
  function After(o: Order, bucket: seq<Key>, cursor: Key): seq<Key> {
    if bucket == [] || o.less(cursor, bucket[0]) then bucket else After(o, bucket[1..], cursor)
  }

  lemma {:induction false} AfterIsSuffix(o: Order, bucket: seq<Key>, cursor: Key)
    ensures |After(o, bucket, cursor)| <= |bucket|
    ensures After(o, bucket, cursor) == bucket[|bucket| - |After(o, bucket, cursor)|..]
  {
    if bucket != [] && !o.less(cursor, bucket[0]) {
      AfterIsSuffix(o, bucket[1..], cursor);
    }
  }

  function Take(keys: seq<Key>, max: nat): (t: seq<Key>)
    ensures |t| == if |keys| <= max then |keys| else max
    ensures t <= keys
  {
    if |keys| <= max then keys else keys[..max]
  }

  /** What is after a cursor in a sorted bucket: all that is greater, and only that. */
  lemma {:induction false} AfterIs(o: TotalOrder, bucket: seq<Key>, cursor: Key)
    requires Sorted(o, bucket)
    ensures forall k :: k in After(o, bucket, cursor) <==> k in bucket && o.less(cursor, k)
    ensures Sorted(o, After(o, bucket, cursor))
  {
    if bucket != [] && !o.less(cursor, bucket[0]) {
      AfterIs(o, bucket[1..], cursor);
      assert bucket == [bucket[0]] + bucket[1..];
    }
  }

  lemma SortedTail(o: TotalOrder, bucket: seq<Key>)
    requires Sorted(o, bucket) && bucket != []
    ensures Sorted(o, bucket[1..]) && forall k :: k in bucket[1..] ==> o.less(bucket[0], k) && !o.less(k, bucket[0])
    ensures !o.less(bucket[0], bucket[0])
  {
  }

  /** Resuming after a key of the bucket: the suffix behind it. */
  lemma {:induction false} AfterAt(o: TotalOrder, bucket: seq<Key>, i: nat)
    requires Sorted(o, bucket) && i < |bucket|
    ensures After(o, bucket, bucket[i]) == bucket[i + 1..]
  {
    var tail := bucket[1..];
    SortedTail(o, bucket);
    if i == 0 {
      if tail != [] {
        assert tail[0] in tail;
      }
    } else {
      assert tail[i - 1] == bucket[i] && bucket[i] in tail;
      AfterAt(o, tail, i - 1);
      assert tail[i..] == bucket[i + 1..];
    }
  }

  /** Paging through the bucket: each request asks for what is left of `max`, at
      most a thousand, and the server answers with at least one key if there is
      one (`pages` are the sizes it would like) and a token if there are more. */
  method ListObjectKeys(o: TotalOrder, bucket: seq<Key>, cursor: Key, max: nat, pages: nat -> nat)
    returns (keys: seq<Key>)
    requires Sorted(o, bucket) && max > 0
    ensures keys == Take(After(o, bucket, cursor), max)
  {
    keys := [];
    ghost var rest := After(o, bucket, cursor);
    var from, page, token := cursor, 0, true;
    while token && |keys| < max
      invariant |keys| <= max && Listed(o, bucket, rest, keys, if token then Some(from) else None)
      decreases |rest| - |keys|, token
    {
      var asked := if max - |keys| < 1000 then max - |keys| else 1000;
      var size := if pages(page) == 0 then 1 else if pages(page) > asked then asked else pages(page);
      keys, token, from := Page(o, bucket, cursor, keys, from, size);
      page := page + 1;
    }
  }

  /** The listing so far is a prefix of what is after the cursor: all of it, or
      followed by what is after `from`. */
  ghost predicate Listed(o: Order, bucket: seq<Key>, rest: seq<Key>, keys: seq<Key>, from: Option<Key>) {
    && keys <= rest
    && if from.Some? then After(o, bucket, from.value) == rest[|keys|..] else keys == rest
  }

  /** One request for at most `size` more keys: whether there is a token for more, and
      the key it stands for. */
  method Page(o: TotalOrder, bucket: seq<Key>, ghost cursor: Key, keys: seq<Key>, from: Key, size: nat)
    returns (more: seq<Key>, token: bool, next: Key)
    requires Sorted(o, bucket) && size > 0 && Listed(o, bucket, After(o, bucket, cursor), keys, Some(from))
    ensures Listed(o, bucket, After(o, bucket, cursor), more, if token then Some(next) else None)
    ensures keys <= more && |more| <= |keys| + size && (token ==> |more| > |keys|)
  {
    var left := After(o, bucket, from);
    var contents := Take(left, size);
    more, token, next := keys + contents, |contents| < |left|, from;
    PageJoins(After(o, bucket, cursor), keys, left, contents, left[|contents|..]);
    if token {
      next := contents[|contents| - 1];
      Resumes(o, bucket, cursor, more, left[|contents|..]);
    }
  }

  lemma PageJoins(rest: seq<Key>, keys: seq<Key>, left: seq<Key>, contents: seq<Key>, tail: seq<Key>)
    requires keys <= rest && left == rest[|keys|..] && contents <= left && tail == left[|contents|..]
    ensures rest == (keys + contents) + tail && tail == rest[|keys + contents|..]
  {
    assert left == contents + tail;
    assert rest == keys + left;
  }

  /** Resuming after the last key seen continues where the listing stopped. */
  lemma Resumes(o: TotalOrder, bucket: seq<Key>, cursor: Key, keys: seq<Key>, left: seq<Key>)
    requires Sorted(o, bucket)
    requires keys != [] && After(o, bucket, cursor) == keys + left
    ensures After(o, bucket, keys[|keys| - 1]) == left
  {
    var rest := After(o, bucket, cursor);
    AfterIsSuffix(o, bucket, cursor);
    var i := |bucket| - |rest| + |keys| - 1;
    assert bucket[i] == rest[|keys| - 1];
    AfterAt(o, bucket, i);
    assert bucket[i + 1..] == left;
  }

  /** The originals of a listing: what the sweep reconciles. */
  function Uncompacted(o: Order, keys: seq<Key>): (u: seq<Key>)
    ensures forall k :: k in u <==> k in keys && !o.compacted(k)
  {
    if keys == [] then []
    else (if o.compacted(keys[0]) then [] else [keys[0]]) + Uncompacted(o, keys[1..])
  }

  lemma {:induction false} UncompactedIsSorted(o: Order, keys: seq<Key>)
    requires Sorted(o, keys)
    ensures Sorted(o, Uncompacted(o, keys))
  {
    if keys != [] {
      UncompactedIsSorted(o, keys[1..]);
      forall k | k in Uncompacted(o, keys[1..]) ensures o.less(keys[0], k) {
        assert k in keys[1..];
      }
    }
  }

  // ---------------------------------------------------------------------- the walk

  type Counts = map<Key, nat>

  function Misses(counts: Counts, k: Key): nat { if k in counts then counts[k] else 0 }

  /** Still missing after `threshold` sweeps in a row, this one included. */
  predicate GivesUp(counts: Counts, threshold: nat, k: Key) { Misses(counts, k) + 1 >= threshold }

  /** A gap that holds the watermark back. */
  predicate Blocks(counts: Counts, existing: set<Key>, threshold: nat, k: Key) {
    k !in existing && !GivesUp(counts, threshold, k)
  }

  function CountsAfter(counts: Counts, keys: seq<Key>, existing: set<Key>, threshold: nat): Counts {
    map k | k in counts.Keys + (set x | x in keys) && (k in keys ==> Blocks(counts, existing, threshold, k))
      :: if k in keys then Misses(counts, k) + 1 else counts[k]
  }

  function GivenUp(counts: Counts, keys: seq<Key>, existing: set<Key>, threshold: nat): set<Key> {
    set k | k in keys && k !in existing && GivesUp(counts, threshold, k)
  }

  /** The position of the first gap that blocks, or the end. */
  function FirstBlocking(counts: Counts, keys: seq<Key>, existing: set<Key>, threshold: nat): (i: nat)
    ensures i <= |keys|
  {
    if keys == [] || Blocks(counts, existing, threshold, keys[0]) then 0
    else 1 + FirstBlocking(counts, keys[1..], existing, threshold)
  }

  lemma {:induction false} FirstBlockingIs(counts: Counts, keys: seq<Key>, existing: set<Key>, threshold: nat)
    ensures var i := FirstBlocking(counts, keys, existing, threshold);
            && (forall j :: 0 <= j < i ==> !Blocks(counts, existing, threshold, keys[j]))
            && (i < |keys| ==> Blocks(counts, existing, threshold, keys[i]))
  {
    if keys != [] && !Blocks(counts, existing, threshold, keys[0]) {
      FirstBlockingIs(counts, keys[1..], existing, threshold);
      var i := FirstBlocking(counts, keys, existing, threshold);
      assert forall j :: 0 < j < |keys| ==> keys[j] == keys[1..][j - 1];
    }
  }

  /** The new watermark: the key before the first blocking gap. */
  function Advanced(counts: Counts, keys: seq<Key>, existing: set<Key>, threshold: nat, cursor: Key): Key {
    var i := FirstBlocking(counts, keys, existing, threshold);
    if i == 0 then cursor else keys[i - 1]
  }

  // ------------------------------------------------------- counts over many sweeps

  /** What a sweep listed and what of it was found; or a restart, which forgets. */
  datatype Round = Round(keys: seq<Key>, existing: set<Key>) | Restarted

  /** How often a key was listed and missed since it was last listed and found. */
  function Missed(rounds: seq<Round>, k: Key): nat {
    if rounds == [] then 0
    else
      var before := Missed(rounds[..|rounds| - 1], k);
      match rounds[|rounds| - 1]
      case Restarted => 0
      case Round(keys, existing) => if k !in keys then before else if k in existing then 0 else before + 1
  }

  /** The counts that the sweeps leave. */
  function CountsOver(rounds: seq<Round>, threshold: nat): Counts {
    if rounds == [] then map[]
    else
      var before := CountsOver(rounds[..|rounds| - 1], threshold);
      match rounds[|rounds| - 1]
      case Restarted => map[]
      case Round(keys, existing) => CountsAfter(before, keys, existing, threshold)
  }

  /** The misses in a row after which a key is given up. */
  function Patience(threshold: nat): nat { if threshold == 0 then 1 else threshold }

  /** A key is listed and missed in a round for the time at which it is given up. */
  predicate TooOften(rounds: seq<Round>, threshold: nat, k: Key) { Missed(rounds, k) % Patience(threshold) == 0 }

  lemma NextTurn(m: nat, t: nat)
    requires t > 0
    ensures (m + 1) % t == if m % t + 1 == t then 0 else m % t + 1
  {
    var q, r := m / t, m % t;
    assert m == q * t + r;
    if r + 1 == t {
      assert m + 1 == (q + 1) * t;
      Division(m + 1, t, q + 1, 0);
    } else {
      Division(m + 1, t, q, r + 1);
    }
  }

  /** A count is that of the misses, from the last time on that the key was given up. */
  lemma {:induction false} MissesAreCounted(rounds: seq<Round>, threshold: nat, k: Key)
    ensures Misses(CountsOver(rounds, threshold), k) == Missed(rounds, k) % Patience(threshold)
  {
    if rounds != [] {
      MissesAreCounted(rounds[..|rounds| - 1], threshold, k);
      NextTurn(Missed(rounds[..|rounds| - 1], k), Patience(threshold));
    }
  }

  /** A gap is given up exactly when it is missed for the `threshold`-th time in a row
      (or for twice as many, and so on: it is counted anew); until then it blocks. */
  lemma GivenUpIff(rounds: seq<Round>, threshold: nat, keys: seq<Key>, existing: set<Key>, k: Key)
    ensures k in GivenUp(CountsOver(rounds, threshold), keys, existing, threshold)
       <==> k in keys && k !in existing && TooOften(rounds + [Round(keys, existing)], threshold, k)
    ensures k in keys ==> (Blocks(CountsOver(rounds, threshold), existing, threshold, k)
                           <==> k !in existing && !TooOften(rounds + [Round(keys, existing)], threshold, k))
  {
    assert (rounds + [Round(keys, existing)])[..|rounds|] == rounds;
    MissesAreCounted(rounds, threshold, k);
    NextTurn(Missed(rounds, k), Patience(threshold));
  }

  /** The watermark passes a key exactly when each key up to it was found, or missed so
      often that it is given up. */
  lemma PassedIff(o: TotalOrder, rounds: seq<Round>, threshold: nat, keys: seq<Key>, existing: set<Key>, cursor: Key,
        k: Key)
    requires Sorted(o, keys) && k in keys && forall x :: x in keys ==> o.less(cursor, x)
    ensures o.AtMost(k, Advanced(CountsOver(rounds, threshold), keys, existing, threshold, cursor))
       <==> forall x :: x in keys && o.AtMost(x, k)
              ==> x in existing || TooOften(rounds + [Round(keys, existing)], threshold, x)
  {
    var counts := CountsOver(rounds, threshold);
    var i := FirstBlocking(counts, keys, existing, threshold);
    FirstBlockingIs(counts, keys, existing, threshold);
    forall x | x in keys
      ensures Blocks(counts, existing, threshold, x)
         <==> x !in existing && !TooOften(rounds + [Round(keys, existing)], threshold, x)
    {
      GivenUpIff(rounds, threshold, keys, existing, x);
    }
    var j :| 0 <= j < |keys| && keys[j] == k;
    if i <= j {
      assert o.AtMost(keys[i], k) && keys[i] in keys && (i > 0 ==> o.less(keys[i - 1], k));
    } else {
      assert o.AtMost(k, keys[i - 1]);
      forall x | x in keys && o.AtMost(x, k) ensures !Blocks(counts, existing, threshold, x) {
        var y :| 0 <= y < |keys| && keys[y] == x;
        assert y <= j;
      }
    }
  }

  function Missing(keys: seq<Key>, existing: set<Key>): seq<Key> {
    if keys == [] then []
    else
      var last := keys[|keys| - 1];
      Missing(keys[..|keys| - 1], existing) + if last in existing then [] else [last]
  }

  predicate Distinct(keys: seq<Key>) { forall i, j :: 0 <= i < j < |keys| ==> keys[i] != keys[j] }

  /** `first` is the position of the first blocking gap, or -1. */
  ghost predicate FirstFound(counts: Counts, keys: seq<Key>, existing: set<Key>, threshold: nat, first: int)
    requires -1 <= first < |keys|
  {
    var i := FirstBlocking(counts, keys, existing, threshold);
    if first == -1 then i == |keys| else i == first
  }

  lemma FirstFoundSnoc(counts: Counts, done: seq<Key>, key: Key, existing: set<Key>, threshold: nat, first: int)
    requires -1 <= first < |done| && FirstFound(counts, done, existing, threshold, first)
    ensures FirstFound(counts, done + [key], existing, threshold,
                       if first == -1 && Blocks(counts, existing, threshold, key) then |done| else first)
  {
    var more := done + [key];
    var i, j := FirstBlocking(counts, done, existing, threshold), FirstBlocking(counts, more, existing, threshold);
    FirstBlockingIs(counts, done, existing, threshold);
    FirstBlockingIs(counts, more, existing, threshold);
    assert forall k :: 0 <= k < |done| ==> more[k] == done[k];
    assert more[|done|] == key;
  }

  lemma NextKey(keys: seq<Key>, i: nat, done: seq<Key>)
    requires Distinct(keys) && i < |keys| && done == keys[..i]
    ensures keys[i] !in done && done + [keys[i]] == keys[..i + 1]
  {
  }

  /** The queue after the walk has offered it every gap. */
  function QueueAfter(pending: seq<Item>, tenant: string, keys: seq<Key>, existing: set<Key>, maxSize: nat): seq<Item> {
    if keys == [] then pending
    else
      var last, before := keys[|keys| - 1], QueueAfter(pending, tenant, keys[..|keys| - 1], existing, maxSize);
      if last in existing then before else Enqueued(before, Item(tenant, last), maxSize)
  }

  /** One more key of the walk. */
  lemma CountsSnoc(counts: Counts, done: seq<Key>, key: Key, existing: set<Key>, threshold: nat)
    requires key !in done
    ensures CountsAfter(counts, done + [key], existing, threshold)
         == if Blocks(counts, existing, threshold, key)
            then CountsAfter(counts, done, existing, threshold)[key := Misses(counts, key) + 1]
            else CountsAfter(counts, done, existing, threshold) - {key}
    ensures Misses(CountsAfter(counts, done, existing, threshold), key) == Misses(counts, key)
  {
  }

  lemma WalkSnoc(pending: seq<Item>, maxSize: nat, tenant: string, counts: Counts, done: seq<Key>, key: Key,
        existing: set<Key>, threshold: nat)
    ensures GivenUp(counts, done + [key], existing, threshold)
         == GivenUp(counts, done, existing, threshold)
            + if key !in existing && GivesUp(counts, threshold, key) then {key} else {}
    ensures QueueAfter(pending, tenant, done + [key], existing, maxSize)
         == if key in existing then QueueAfter(pending, tenant, done, existing, maxSize)
            else Enqueued(QueueAfter(pending, tenant, done, existing, maxSize), Item(tenant, key), maxSize)
    ensures |Missing(done + [key], existing)| == |Missing(done, existing)| + if key in existing then 0 else 1
  {
    assert (done + [key])[..|done|] == done;
  }

  /** Where a walk stands after some keys. */
  ghost function Walked(counts: Counts, was: seq<Item>, tenant: string, done: seq<Key>, existing: set<Key>,
        threshold: nat, maxSize: nat, missCounts: Counts, pending: seq<Item>, missing: nat, quarantined: set<Key>,
        first: int): Verdict {
    if missCounts == CountsAfter(counts, done, existing, threshold)
        && quarantined == GivenUp(counts, done, existing, threshold)
       && missing == |Missing(done, existing)| && pending == QueueAfter(was, tenant, done, existing, maxSize)
       && -1 <= first < |done| && FirstFound(counts, done, existing, threshold, first) then Upheld else Violated
  }

  lemma WalkStarts(counts: Counts, was: seq<Item>, tenant: string, existing: set<Key>, threshold: nat, maxSize: nat)
    ensures Walked(counts, was, tenant, [], existing, threshold, maxSize, counts, was, 0, {}, -1) == Upheld
  {
  }

  lemma WalkEnds(counts: Counts, was: seq<Item>, tenant: string, keys: seq<Key>, existing: set<Key>, threshold: nat,
        maxSize: nat, missCounts: Counts, pending: seq<Item>, missing: nat, quarantined: set<Key>, first: int)
    requires Walked(counts, was, tenant, keys, existing, threshold, maxSize, missCounts, pending, missing,
             quarantined, first) == Upheld
    ensures missCounts == CountsAfter(counts, keys, existing, threshold)
            && quarantined == GivenUp(counts, keys, existing, threshold)
    ensures missing == |Missing(keys, existing)| && pending == QueueAfter(was, tenant, keys, existing, maxSize)
    ensures -1 <= first < |keys|
    ensures FirstBlocking(counts, keys, existing, threshold) == if first == -1 then |keys| else first
  {
  }

  lemma WalkSteps(counts: Counts, was: seq<Item>, tenant: string, done: seq<Key>, key: Key, existing: set<Key>,
        threshold: nat, maxSize: nat, missCounts: Counts, pending: seq<Item>, missing: nat, quarantined: set<Key>,
        first: int)
    requires key !in done
             && Walked(counts, was, tenant, done, existing, threshold, maxSize, missCounts, pending, missing,
                 quarantined, first) == Upheld
    ensures Walked(counts, was, tenant, done + [key], existing, threshold, maxSize,
                   if Blocks(missCounts, existing, threshold, key)
                       then missCounts[key := Misses(missCounts, key) + 1] else missCounts - {key},
                   if key !in existing then Enqueued(pending, Item(tenant, key), maxSize) else pending,
                   if key !in existing then missing + 1 else missing,
                   if key !in existing && GivesUp(missCounts, threshold, key) then quarantined + {key} else quarantined,
                   if key !in existing && !GivesUp(missCounts, threshold, key) && first == -1 then |done| else first)
                       == Upheld
  {
    CountsSnoc(counts, done, key, existing, threshold);
    WalkSnoc(was, maxSize, tenant, counts, done, key, existing, threshold);
    FirstFoundSnoc(counts, done, key, existing, threshold, first);
  }

  class ReconcileSweep {
    const threshold: nat
    const queue: NotifyQueue
    var missCounts: Counts

    constructor (threshold: nat, queue: NotifyQueue)
      ensures this.threshold == threshold && this.queue == queue && missCounts == map[]
    {
      this.threshold, this.queue, missCounts := threshold, queue, map[];
    }

    /** The membership lookup, a thousand keys a request; the table may change
        between the requests (`refs` of each). */
    method ExistingSourceRefs(keys: seq<Key>, refs: nat -> set<Key>) returns (found: set<Key>)
      ensures forall k :: k in found ==> k in keys && exists i :: k in refs(i)
      ensures forall k :: k in keys && (forall i :: k in refs(i)) ==> k in found
    {
      found := {};
      var i, request := 0, 0;
      while i < |keys|
        invariant 0 <= i <= |keys|
        invariant forall k :: k in found ==> k in keys && exists j :: k in refs(j)
        invariant forall k :: k in keys[..i] && (forall j :: k in refs(j)) ==> k in found
      {
        var end := if i + 1000 < |keys| then i + 1000 else |keys|;
        var chunk := keys[i..end];
        assert keys[..end] == keys[..i] + chunk;
        found := found + set k | k in chunk && k in refs(request);
        i, request := end, request + 1;
      }
      assert keys[..i] == keys;
    }

    /** One key of the walk. */
    method WalkOne(tenant: string, key: Key, existing: set<Key>) returns (missed: bool, gaveUp: bool)
      requires queue.Valid()
      modifies this`missCounts, queue
      ensures missed <==> key !in existing
      ensures gaveUp <==> key !in existing && GivesUp(old(missCounts), threshold, key)
      ensures missCounts == if Blocks(old(missCounts), existing, threshold, key)
                            then old(missCounts)[key := Misses(old(missCounts), key) + 1] else old(missCounts) - {key}
      ensures queue.Valid()
      ensures queue.pending == if missed
              then Enqueued(old(queue.pending), Item(tenant, key), queue.maxSize) else old(queue.pending)
    {
      missed, gaveUp := key !in existing, false;
      if !missed {
        missCounts := missCounts - {key};
        return;
      }
      var _ := queue.Enqueue(Item(tenant, key));
      var count := Misses(missCounts, key) + 1;
      if count >= threshold {
        missCounts := missCounts - {key};
        gaveUp := true;
      } else {
        missCounts := missCounts[key := count];
      }
    }

    /** One walk over the listed originals. Every gap is enqueued; a gap missing too
        often is given up and reported; the watermark stops before the first other
        gap. */
    method Walk(tenant: string, keys: seq<Key>, existing: set<Key>)
      returns (newCursor: Option<Key>, missing: nat, quarantined: set<Key>)
      requires Distinct(keys) && queue.Valid()
      modifies this`missCounts, queue
      ensures missCounts == CountsAfter(old(missCounts), keys, existing, threshold)
      ensures quarantined == GivenUp(old(missCounts), keys, existing, threshold)
      ensures missing == |Missing(keys, existing)|
      ensures newCursor == (var i := FirstBlocking(old(missCounts), keys, existing, threshold);
                                if i == 0 then None else Some(keys[i - 1]))
      ensures queue.Valid()
      ensures queue.pending == QueueAfter(old(queue.pending), tenant, keys, existing, queue.maxSize)
    {
      ghost var counts, was := missCounts, queue.pending;
      var earliestBlockingIndex;
      earliestBlockingIndex, missing, quarantined := WalkAll(tenant, keys, existing);
      WalkEnds(counts, was, tenant, keys, existing, threshold, queue.maxSize, missCounts, queue.pending, missing,
          quarantined, earliestBlockingIndex);
      if earliestBlockingIndex == -1 {
        newCursor := if |keys| > 0 then Some(keys[|keys| - 1]) else None;
      } else {
        newCursor := if earliestBlockingIndex > 0 then Some(keys[earliestBlockingIndex - 1]) else None;
      }
    }

    /** The loop over the keys. */
    method WalkAll(tenant: string, keys: seq<Key>, existing: set<Key>)
      returns (earliestBlockingIndex: int, missing: nat, quarantined: set<Key>)
      requires Distinct(keys) && queue.Valid()
      modifies this`missCounts, queue
      ensures queue.Valid()
      ensures Walked(old(missCounts), old(queue.pending), tenant, keys, existing, threshold, queue.maxSize,
                     missCounts, queue.pending, missing, quarantined, earliestBlockingIndex) == Upheld
    {
      earliestBlockingIndex, missing, quarantined := -1, 0, {};
      ghost var counts, was, done := missCounts, queue.pending, [];
      WalkStarts(counts, was, tenant, existing, threshold, queue.maxSize);
      for i := 0 to |keys|
        invariant queue.Valid() && done == keys[..i]
        invariant Walked(counts, was, tenant, done, existing, threshold, queue.maxSize,
                         missCounts, queue.pending, missing, quarantined, earliestBlockingIndex) == Upheld
      {
        var key := keys[i];
        NextKey(keys, i, done);
        ghost var before, pending, n, q, first := missCounts, queue.pending, missing, quarantined,
            earliestBlockingIndex;
        var missed, gaveUp := WalkOne(tenant, key, existing);
        missing := if missed then missing + 1 else missing;
        quarantined := if gaveUp then quarantined + {key} else quarantined;
        if missed && !gaveUp && earliestBlockingIndex == -1 {
          earliestBlockingIndex := i;
        }
        WalkSteps(counts, was, tenant, done, key, existing, threshold, queue.maxSize, before, pending, n, q, first);
        done := done + [key];
      }
      assert done == keys;
    }
  }
}
