/**
  When the reconcile sweep makes progress: over a bucket that does not change,
  whatever the table answers, so whatever the consumer does.
*/
module ReconcileLiveness {
  import opened Keys
  import opened Reconcile

  datatype Progress = Progress(cursor: Key, counts: Counts)

  /** The sweep of one tenant, with `existing` the answer of the lookup. */
  function SweepOnce(o: Order, bucket: seq<Key>, max: nat, threshold: nat, p: Progress, existing: set<Key>): Progress {
    var keys := Uncompacted(o, Take(After(o, bucket, p.cursor), max));
    Progress(Advanced(p.counts, keys, existing, threshold, p.cursor), CountsAfter(p.counts, keys, existing, threshold))
  }

  function Sweeps(o: Order, bucket: seq<Key>, max: nat, threshold: nat, p: Progress, answers: seq<set<Key>>): Progress
    decreases |answers|
  {
    if answers == [] then p
    else Sweeps(o, bucket, max, threshold, SweepOnce(o, bucket, max, threshold, p, answers[0]), answers[1..])
  }

  /** The sweep of one tenant, whole: list after the cursor, drop compacted keys, look the
      rest up, walk, and move the cursor. It is `SweepOnce` of what the lookup found. */
  method ReconcileTenant(sweep: ReconcileSweep, o: TotalOrder, bucket: seq<Key>, tenant: string, cursor: Key,
        max: nat, pages: nat -> nat, refs: nat -> set<Key>)
    returns (newCursor: Key, existing: set<Key>)
    requires Sorted(o, bucket) && max > 0 && sweep.queue.Valid()
    modifies sweep`missCounts, sweep.queue
    ensures sweep.queue.Valid()
    ensures Progress(newCursor, sweep.missCounts)
         == SweepOnce(o, bucket, max, sweep.threshold, Progress(cursor, old(sweep.missCounts)), existing)
    ensures forall k :: k in existing ==> exists i :: k in refs(i)
  {
    var allKeys := ListObjectKeys(o, bucket, cursor, max, pages);
    var keys := Uncompacted(o, allKeys);
    newCursor, existing := cursor, {};
    if |keys| == 0 {
      assert CountsAfter(sweep.missCounts, [], {}, sweep.threshold) == sweep.missCounts;
      return;
    }
    ListedAreDistinct(o, bucket, cursor, max);
    existing := sweep.ExistingSourceRefs(keys, refs);
    var mark, _, _ := sweep.Walk(tenant, keys, existing);
    if mark.Some? {
      newCursor := mark.value;
    }
  }

  lemma ListedAreDistinct(o: TotalOrder, bucket: seq<Key>, cursor: Key, max: nat)
    requires Sorted(o, bucket)
    ensures Distinct(Uncompacted(o, Take(After(o, bucket, cursor), max)))
  {
    AfterIs(o, bucket, cursor);
    var listed := Take(After(o, bucket, cursor), max);
    UncompactedIsSorted(o, listed);
    var keys := Uncompacted(o, listed);
    forall i, j | 0 <= i < j < |keys| ensures keys[i] != keys[j] {
      assert o.less(keys[i], keys[j]);
    }
  }

  /** A count that is kept is below the threshold. */
  ghost predicate CountsOk(threshold: nat, counts: Counts) {
    forall k :: k in counts ==> counts[k] < threshold
  }

  lemma SweepKeepsCounts(o: Order, bucket: seq<Key>, max: nat, threshold: nat, p: Progress, existing: set<Key>)
    requires CountsOk(threshold, p.counts)
    ensures CountsOk(threshold, SweepOnce(o, bucket, max, threshold, p, existing).counts)
  {
  }

  /** The watermark stays, or moves to a listed original. */
  lemma SweepMoves(o: TotalOrder, bucket: seq<Key>, max: nat, threshold: nat, p: Progress, existing: set<Key>)
    requires Sorted(o, bucket)
    ensures var c := SweepOnce(o, bucket, max, threshold, p, existing).cursor;
            c == p.cursor || (c in Uncompacted(o, Take(After(o, bucket, p.cursor), max)) && o.less(p.cursor, c))
  {
    AfterIs(o, bucket, p.cursor);
    var c := SweepOnce(o, bucket, max, threshold, p, existing).cursor;
    if c != p.cursor {
      assert c in Take(After(o, bucket, p.cursor), max);
    }
  }

  lemma {:induction false} SweepsMoveForward(o: TotalOrder, bucket: seq<Key>, max: nat, threshold: nat, p: Progress,
        answers: seq<set<Key>>)
    requires Sorted(o, bucket) && CountsOk(threshold, p.counts)
    ensures var q := Sweeps(o, bucket, max, threshold, p, answers);
            o.AtMost(p.cursor, q.cursor) && CountsOk(threshold, q.counts)
    decreases |answers|
  {
    if answers != [] {
      SweepMoves(o, bucket, max, threshold, p, answers[0]);
      SweepKeepsCounts(o, bucket, max, threshold, p, answers[0]);
      SweepsMoveForward(o, bucket, max, threshold, SweepOnce(o, bucket, max, threshold, p, answers[0]), answers[1..]);
    }
  }

  /** The first original after the watermark, if it is in reach of one listing. */
  ghost predicate First(o: Order, bucket: seq<Key>, max: nat, cursor: Key, k: Key) {
    var keys := Uncompacted(o, Take(After(o, bucket, cursor), max));
    keys != [] && keys[0] == k
  }

  /** A sweep passes the first listed original, or counts one more miss of it. */
  lemma SweepPassesOrCounts(o: TotalOrder, bucket: seq<Key>, max: nat, threshold: nat, p: Progress,
        existing: set<Key>, k: Key)
    requires Sorted(o, bucket) && First(o, bucket, max, p.cursor, k)
    ensures var q := SweepOnce(o, bucket, max, threshold, p, existing);
            || o.AtMost(k, q.cursor)
            || (q.cursor == p.cursor && Misses(q.counts, k) == Misses(p.counts, k) + 1 < threshold)
  {
    var listed := Take(After(o, bucket, p.cursor), max);
    var keys := Uncompacted(o, listed);
    AfterIs(o, bucket, p.cursor);
    UncompactedIsSorted(o, listed);
    var i := FirstBlocking(p.counts, keys, existing, threshold);
    FirstBlockingIs(p.counts, keys, existing, threshold);
    if i > 1 {
      assert o.less(keys[0], keys[i - 1]);
    }
  }

  /** A sweep that misses an original, which it has not yet missed often enough, stops
      below it, and counts at most one more miss. */
  lemma SweepWaits(o: TotalOrder, bucket: seq<Key>, max: nat, threshold: nat, p: Progress, existing: set<Key>, k: Key)
    requires Sorted(o, bucket) && k in bucket && !o.compacted(k) && o.less(p.cursor, k) && k !in existing
    requires Misses(p.counts, k) + 1 < threshold
    ensures var q := SweepOnce(o, bucket, max, threshold, p, existing);
            o.less(q.cursor, k) && Misses(q.counts, k) <= Misses(p.counts, k) + 1
  {
    var listed := Take(After(o, bucket, p.cursor), max);
    var keys := Uncompacted(o, listed);
    AfterIs(o, bucket, p.cursor);
    UncompactedIsSorted(o, listed);
    FirstBlockingIs(p.counts, keys, existing, threshold);
    var i := FirstBlocking(p.counts, keys, existing, threshold);
    if i > 0 {
      assert keys[i - 1] in keys;
      if k in keys {
        var j :| 0 <= j < |keys| && keys[j] == k;
        assert i <= j;
      } else {
        ListedIsBelow(o, bucket, max, p.cursor, keys[i - 1], k);
      }
    }
  }

  /** What a listing leaves out comes after all that is listed. */
  lemma ListedIsBelow(o: TotalOrder, bucket: seq<Key>, max: nat, cursor: Key, x: Key, k: Key)
    requires Sorted(o, bucket) && k in bucket && o.less(cursor, k)
    requires x in Take(After(o, bucket, cursor), max) && k !in Take(After(o, bucket, cursor), max)
    ensures o.less(x, k)
  {
    var rest := After(o, bucket, cursor);
    AfterIs(o, bucket, cursor);
    var i :| 0 <= i < |Take(rest, max)| && Take(rest, max)[i] == x;
    assert k in rest;
    var j :| 0 <= j < |rest| && rest[j] == k;
    assert forall m :: 0 <= m < |Take(rest, max)| ==> Take(rest, max)[m] == rest[m];
  }

  /** No key is skipped: until an original has been missed in `threshold` sweeps, however
      many keys there are, the watermark stays below it. */
  lemma {:induction false} WatermarkWaits(o: TotalOrder, bucket: seq<Key>, max: nat, threshold: nat, p: Progress,
        answers: seq<set<Key>>, k: Key)
    requires Sorted(o, bucket) && k in bucket && !o.compacted(k) && o.less(p.cursor, k)
    requires (forall a :: a in answers ==> k !in a) && (answers == [] || Misses(p.counts, k) + |answers| < threshold)
    ensures o.less(Sweeps(o, bucket, max, threshold, p, answers).cursor, k)
    decreases |answers|
  {
    if answers != [] {
      assert answers[0] in answers && forall a :: a in answers[1..] ==> a in answers;
      SweepWaits(o, bucket, max, threshold, p, answers[0], k);
      WatermarkWaits(o, bucket, max, threshold, SweepOnce(o, bucket, max, threshold, p, answers[0]), answers[1..], k);
    }
  }

  /** No wedge: whatever is missing, and whatever it takes, the watermark passes the
      first original within `threshold` sweeps. */
  lemma {:induction false} FirstIsPassed(o: TotalOrder, bucket: seq<Key>, max: nat, threshold: nat, p: Progress,
        answers: seq<set<Key>>, k: Key)
    requires Sorted(o, bucket) && CountsOk(threshold, p.counts) && First(o, bucket, max, p.cursor, k)
    requires |answers| > 0 && |answers| >= threshold - Misses(p.counts, k)
    ensures o.AtMost(k, Sweeps(o, bucket, max, threshold, p, answers).cursor)
    decreases |answers|
  {
    var q := SweepOnce(o, bucket, max, threshold, p, answers[0]);
    SweepPassesOrCounts(o, bucket, max, threshold, p, answers[0], k);
    SweepKeepsCounts(o, bucket, max, threshold, p, answers[0]);
    if o.AtMost(k, q.cursor) {
      SweepsMoveForward(o, bucket, max, threshold, q, answers[1..]);
    } else {
      FirstIsPassed(o, bucket, max, threshold, q, answers[1..], k);
    }
  }

  // ------------------------------------------------------------- all of the bucket

  /** Every original is at or below the watermark. */
  ghost predicate AllPassed(o: Order, bucket: seq<Key>, cursor: Key) {
    forall k :: k in bucket && !o.compacted(k) ==> o.AtMost(k, cursor)
  }

  /** A full listing of compacted keys alone, with an original behind it. */
  ghost predicate WallAt(o: Order, bucket: seq<Key>, max: nat, i: nat) {
    && i + max <= |bucket| && (forall j :: i <= j < i + max ==> o.compacted(bucket[j]))
    && exists j :: i + max <= j < |bucket| && !o.compacted(bucket[j])
  }

  ghost predicate Wall(o: Order, bucket: seq<Key>, max: nat, from: nat) {
    exists i: nat :: from <= i && WallAt(o, bucket, max, i)
  }

  /** Where a listing after the cursor starts. */
  function Position(o: Order, bucket: seq<Key>, cursor: Key): (i: nat)
    ensures i <= |bucket| && After(o, bucket, cursor) == bucket[i..]
  {
    AfterIsSuffix(o, bucket, cursor);
    |bucket| - |After(o, bucket, cursor)|
  }

  /** How many originals stand at or after a position. */
  function Left(o: Order, bucket: seq<Key>, from: nat): nat
    decreases |bucket| - from
  {
    if from >= |bucket| then 0 else (if o.compacted(bucket[from]) then 0 else 1) + Left(o, bucket, from + 1)
  }

  lemma {:induction false} LeftShrinks(o: Order, bucket: seq<Key>, from: nat, later: nat)
    requires from <= later
    ensures Left(o, bucket, later) <= Left(o, bucket, from)
    decreases later - from
  {
    if from < later && from < |bucket| {
      LeftShrinks(o, bucket, from + 1, later);
    }
  }

  lemma {:induction false} NoneLeft(o: Order, bucket: seq<Key>, from: nat)
    requires Left(o, bucket, from) == 0
    ensures forall i :: from <= i < |bucket| ==> o.compacted(bucket[i])
    decreases |bucket| - from
  {
    if from < |bucket| {
      NoneLeft(o, bucket, from + 1);
    }
  }

  lemma {:induction false} NextOriginal(o: Order, bucket: seq<Key>, from: nat) returns (i: nat)
    requires Left(o, bucket, from) > 0
    ensures from <= i < |bucket| && !o.compacted(bucket[i]) && Left(o, bucket, i + 1) == Left(o, bucket, from) - 1
    ensures forall j :: from <= j < i ==> o.compacted(bucket[j])
    decreases |bucket| - from
  {
    i := from;
    if o.compacted(bucket[from]) {
      i := NextOriginal(o, bucket, from + 1);
    }
  }

  /** The sweeps that one original may take, and that `n` may. */
  function Round(threshold: nat): nat { if threshold == 0 then 1 else threshold }

  function Rounds(threshold: nat, n: nat): nat { if n == 0 then 0 else Round(threshold) + Rounds(threshold, n - 1) }

  /** Positions and cursors agree. */
  lemma {:induction false} PositionIs(o: TotalOrder, bucket: seq<Key>, cursor: Key, i: nat)
    requires Sorted(o, bucket) && i < |bucket|
    ensures Position(o, bucket, cursor) <= i <==> o.less(cursor, bucket[i])
  {
    AfterIsSuffix(o, bucket[1..], cursor);
    if !o.less(cursor, bucket[0]) && i > 0 {
      PositionIs(o, bucket[1..], cursor, i - 1);
    }
  }

  /** Without a wall the next original is within reach. */
  lemma NextInReach(o: TotalOrder, bucket: seq<Key>, max: nat, cursor: Key, i: nat)
    requires Sorted(o, bucket) && Position(o, bucket, cursor) <= i < |bucket| && !o.compacted(bucket[i])
    requires forall j :: Position(o, bucket, cursor) <= j < i ==> o.compacted(bucket[j])
    requires !Wall(o, bucket, max, Position(o, bucket, cursor))
    ensures First(o, bucket, max, cursor, bucket[i])
  {
    var from := Position(o, bucket, cursor);
    if i - from >= max {
      assert WallAt(o, bucket, max, from);
    }
    var listed := Take(bucket[from..], max);
    assert listed[i - from] == bucket[i];
    forall x | 0 <= x < i - from ensures o.compacted(listed[x]) {
      assert listed[x] == bucket[from + x];
    }
    FirstUncompactedAt(o, listed, i - from);
  }

  lemma {:induction false} FirstUncompactedAt(o: Order, keys: seq<Key>, i: nat)
    requires i < |keys| && !o.compacted(keys[i]) && forall x :: 0 <= x < i ==> o.compacted(keys[x])
    ensures Uncompacted(o, keys) != [] && Uncompacted(o, keys)[0] == keys[i]
  {
    if i > 0 {
      FirstUncompactedAt(o, keys[1..], i - 1);
    }
  }

  lemma {:induction false} SweepsConcat(o: Order, bucket: seq<Key>, max: nat, threshold: nat, p: Progress,
        a: seq<set<Key>>, b: seq<set<Key>>)
    ensures Sweeps(o, bucket, max, threshold, p, a + b)
         == Sweeps(o, bucket, max, threshold, Sweeps(o, bucket, max, threshold, p, a), b)
    decreases |a|
  {
    if a == [] {
      assert a + b == b;
    } else {
      assert (a + b)[0] == a[0] && (a + b)[1..] == a[1..] + b;
      SweepsConcat(o, bucket, max, threshold, SweepOnce(o, bucket, max, threshold, p, a[0]), a[1..], b);
    }
  }

  /** Every original is passed within `threshold` sweeps for each of them. */
  lemma {:induction false} AllArePassed(o: TotalOrder, bucket: seq<Key>, max: nat, threshold: nat, p: Progress,
        answers: seq<set<Key>>, n: nat)
    requires Sorted(o, bucket) && CountsOk(threshold, p.counts)
    requires !Wall(o, bucket, max, Position(o, bucket, p.cursor))
    requires n == Left(o, bucket, Position(o, bucket, p.cursor)) && |answers| >= Rounds(threshold, n)
    ensures AllPassed(o, bucket, Sweeps(o, bucket, max, threshold, p, answers).cursor)
    decreases n
  {
    if n == 0 {
      SweepsMoveForward(o, bucket, max, threshold, p, answers);
      NothingLeft(o, bucket, p.cursor, Sweeps(o, bucket, max, threshold, p, answers).cursor);
    } else {
      var q, later, m := AfterRound(o, bucket, max, threshold, p, answers, n);
      AllArePassed(o, bucket, max, threshold, q, later, m);
    }
  }

  lemma AfterRound(o: TotalOrder, bucket: seq<Key>, max: nat, threshold: nat, p: Progress, answers: seq<set<Key>>,
        n: nat)
    returns (q: Progress, later: seq<set<Key>>, m: nat)
    requires Sorted(o, bucket) && CountsOk(threshold, p.counts)
    requires !Wall(o, bucket, max, Position(o, bucket, p.cursor))
    requires 0 < n == Left(o, bucket, Position(o, bucket, p.cursor)) && |answers| >= Rounds(threshold, n)
    ensures Sweeps(o, bucket, max, threshold, p, answers) == Sweeps(o, bucket, max, threshold, q, later)
    ensures CountsOk(threshold, q.counts) && !Wall(o, bucket, max, Position(o, bucket, q.cursor))
    ensures m == Left(o, bucket, Position(o, bucket, q.cursor)) < n && |later| >= Rounds(threshold, m)
  {
    var i := NextIsFirst(o, bucket, max, p.cursor);
    var now;
    now, later := SplitRounds(threshold, answers, n);
    SweepsConcat(o, bucket, max, threshold, p, now, later);
    q := OneRound(o, bucket, max, threshold, p, now, i);
    m := Left(o, bucket, Position(o, bucket, q.cursor));
    FurtherOn(o, bucket, max, Position(o, bucket, p.cursor), i, Position(o, bucket, q.cursor));
  }

  lemma NextIsFirst(o: TotalOrder, bucket: seq<Key>, max: nat, cursor: Key) returns (i: nat)
    requires Sorted(o, bucket) && !Wall(o, bucket, max, Position(o, bucket, cursor))
    requires Left(o, bucket, Position(o, bucket, cursor)) > 0
    ensures Position(o, bucket, cursor) <= i < |bucket| && First(o, bucket, max, cursor, bucket[i])
    ensures Left(o, bucket, i + 1) < Left(o, bucket, Position(o, bucket, cursor))
  {
    i := NextOriginal(o, bucket, Position(o, bucket, cursor));
    NextInReach(o, bucket, max, cursor, i);
  }

  lemma FurtherOn(o: Order, bucket: seq<Key>, max: nat, from: nat, i: nat, later: nat)
    requires from <= i < later && Left(o, bucket, i + 1) < Left(o, bucket, from) && !Wall(o, bucket, max, from)
    ensures Left(o, bucket, later) < Left(o, bucket, from) && !Wall(o, bucket, max, later)
  {
    LeftShrinks(o, bucket, i + 1, later);
    NoWallAhead(o, bucket, max, from, later);
  }

  lemma NoWallAhead(o: Order, bucket: seq<Key>, max: nat, from: nat, later: nat)
    requires !Wall(o, bucket, max, from) && from <= later
    ensures !Wall(o, bucket, max, later)
  {
  }

  lemma OneRound(o: TotalOrder, bucket: seq<Key>, max: nat, threshold: nat, p: Progress, answers: seq<set<Key>>,
        i: nat) returns (q: Progress)
    requires Sorted(o, bucket) && CountsOk(threshold, p.counts) && i < |bucket|
             && First(o, bucket, max, p.cursor, bucket[i])
    requires |answers| == Round(threshold)
    ensures q == Sweeps(o, bucket, max, threshold, p, answers)
    ensures Position(o, bucket, q.cursor) > i && CountsOk(threshold, q.counts)
  {
    q := Sweeps(o, bucket, max, threshold, p, answers);
    FirstIsPassed(o, bucket, max, threshold, p, answers, bucket[i]);
    SweepsMoveForward(o, bucket, max, threshold, p, answers);
    PositionIs(o, bucket, q.cursor, i);
  }

  lemma SplitRounds(threshold: nat, answers: seq<set<Key>>, n: nat)
    returns (now: seq<set<Key>>, later: seq<set<Key>>)
    requires n > 0 && |answers| >= Rounds(threshold, n)
    ensures answers == now + later && |now| == Round(threshold)
    ensures forall m {:trigger Rounds(threshold, m)} :: 0 <= m < n ==> |later| >= Rounds(threshold, m)
  {
    now, later := answers[..Round(threshold)], answers[Round(threshold)..];
    forall m | 0 <= m < n ensures |later| >= Rounds(threshold, m) {
      RoundsAreMonotone(threshold, m, n - 1);
    }
  }

  lemma {:induction false} RoundsAreMonotone(threshold: nat, m: nat, n: nat)
    requires m <= n
    ensures Rounds(threshold, m) <= Rounds(threshold, n)
  {
    if m < n {
      RoundsAreMonotone(threshold, m, n - 1);
    }
  }

  lemma NothingLeft(o: TotalOrder, bucket: seq<Key>, a: Key, b: Key)
    requires Sorted(o, bucket) && o.AtMost(a, b) && Left(o, bucket, Position(o, bucket, a)) == 0
    ensures AllPassed(o, bucket, b)
  {
    NoneLeft(o, bucket, Position(o, bucket, a));
    forall k | k in bucket && !o.compacted(k) ensures o.AtMost(k, b) {
      var i :| 0 <= i < |bucket| && bucket[i] == k;
      PositionIs(o, bucket, a, i);
    }
  }

  /** A listing that starts before a wall ends before its end. */
  lemma ListedBefore(o: Order, bucket: seq<Key>, max: nat, from: nat, b: nat, c: Key) returns (x: nat)
    requires from <= b && WallAt(o, bucket, max, b) && c in Uncompacted(o, Take(bucket[from..], max))
    ensures x < b && bucket[x] == c
  {
    var listed := Take(bucket[from..], max);
    var i :| 0 <= i < |listed| && listed[i] == c;
    x := from + i;
  }

  /** A sweep does not pass a wall. */
  lemma SweepStopsAtWall(o: TotalOrder, bucket: seq<Key>, max: nat, threshold: nat, p: Progress, existing: set<Key>,
        b: nat)
    requires Sorted(o, bucket) && WallAt(o, bucket, max, b) && o.less(p.cursor, bucket[b])
    ensures o.less(SweepOnce(o, bucket, max, threshold, p, existing).cursor, bucket[b])
  {
    var c := SweepOnce(o, bucket, max, threshold, p, existing).cursor;
    SweepMoves(o, bucket, max, threshold, p, existing);
    if c != p.cursor {
      var from := Position(o, bucket, p.cursor);
      PositionIs(o, bucket, p.cursor, b);
      var x := ListedBefore(o, bucket, max, from, b, c);
    }
  }

  lemma {:induction false} SweepsStopAtWall(o: TotalOrder, bucket: seq<Key>, max: nat, threshold: nat, p: Progress,
        answers: seq<set<Key>>, b: nat)
    requires Sorted(o, bucket) && WallAt(o, bucket, max, b) && o.less(p.cursor, bucket[b])
    ensures o.less(Sweeps(o, bucket, max, threshold, p, answers).cursor, bucket[b])
    decreases |answers|
  {
    if answers != [] {
      SweepStopsAtWall(o, bucket, max, threshold, p, answers[0], b);
      SweepsStopAtWall(o, bucket, max, threshold, SweepOnce(o, bucket, max, threshold, p, answers[0]), answers[1..], b);
    }
  }

  /** An original behind a wall is never passed. */
  lemma NeverBehindWall(o: TotalOrder, bucket: seq<Key>, max: nat, threshold: nat, p: Progress, answers: seq<set<Key>>)
    requires Sorted(o, bucket) && Wall(o, bucket, max, Position(o, bucket, p.cursor))
    ensures !AllPassed(o, bucket, Sweeps(o, bucket, max, threshold, p, answers).cursor)
  {
    var b: nat :| Position(o, bucket, p.cursor) <= b && WallAt(o, bucket, max, b);
    var j :| b + max <= j < |bucket| && !o.compacted(bucket[j]);
    PositionIs(o, bucket, p.cursor, b);
    SweepsStopAtWall(o, bucket, max, threshold, p, answers, b);
    assert bucket[j] in bucket && (b == j || o.less(bucket[b], bucket[j]));
  }

  /** The sweep gets through a fixed bucket exactly when no full listing of
      compacted keys stands before an original; and then within `threshold` sweeps
      for each original, whatever the table answers. */
  lemma ProgressIffNoWall(o: TotalOrder, bucket: seq<Key>, max: nat, threshold: nat, p: Progress, n: nat)
    requires Sorted(o, bucket) && CountsOk(threshold, p.counts)
    requires n == Rounds(threshold, Left(o, bucket, Position(o, bucket, p.cursor)))
    ensures (forall answers ::
               |answers| == n
               ==> AllPassed(o, bucket, Sweeps(o, bucket, max, threshold, p, answers).cursor))
       <==> !Wall(o, bucket, max, Position(o, bucket, p.cursor))
  {
    if Wall(o, bucket, max, Position(o, bucket, p.cursor)) {
      var answers: seq<set<Key>> := seq(n, i => {});
      NeverBehindWall(o, bucket, max, threshold, p, answers);
      assert |answers| == n;
    } else {
      forall answers: seq<set<Key>> | |answers| == n
        ensures AllPassed(o, bucket, Sweeps(o, bucket, max, threshold, p, answers).cursor)
      {
        AllArePassed(o, bucket, max, threshold, p, answers, Left(o, bucket, Position(o, bucket, p.cursor)));
      }
    }
  }
}
