/**
  The reconcile sweep of one tenant as a step relation. A sweep lists page by page,
  looks references up chunk by chunk, walks, and writes the watermark; between any
  two of these objects land, are compacted and are deleted, the table of rows
  changes in every way (whatever the queue and its consumer did), and the process
  restarts.
*/
module ReconcileProtocol {
  import opened Keys
  import opened Reconcile
  import opened Runs

  /** The most keys that one sweep lists, and the sweeps after which it gives up. */
  datatype Limits = Limits(max: nat, threshold: nat)

  /** A write of the watermark: the last key and its version. */
  datatype Mark = Mark(key: Key, version: nat)

  /** The row of the greatest version is the one that is read. */
  function Latest(marks: seq<Mark>): (m: Mark)
    ensures marks != [] ==> m in marks
    ensures forall x :: x in marks ==> x.version <= m.version
  {
    if marks == [] then Mark("", 0)
    else
      var m, last := Latest(marks[..|marks| - 1]), marks[|marks| - 1];
      assert forall x :: x in marks ==> x == last || x in marks[..|marks| - 1];
      if |marks| > 1 && m.version > last.version then m else last
  }

  datatype Sweep =
    | Idle
    | Listing(seen: seq<Key>, more: bool)                     // pages so far, and whether another is asked for
    | Looking(seen: seq<Key>, done: nat, existing: set<Key>)  // how far the lookup of the originals got
    | Writing(mark: Key)                                      // the walk is over, the watermark to be written

  datatype State = State(
    objects: set<Key>,
    landed: set<Key>,        // every original there has been
    lost: set<Key>,          // originals deleted before they were found or given up on
    refs: set<Key>,          // the source references present in the table
    marks: seq<Mark>,
    counts: Counts,
    sweep: Sweep,
    confirmed: set<Key>,     // found in the table by some sweep
    quarantined: set<Key>)   // given up on, with an operator event
  {
    function Cursor(): Key { Latest(marks).key }
  }

  datatype Step =
    | Land(key: Key)                   // a new original
    | Compact(key: Key)                // a compacted object is written
    | Delete(key: Key)                 // compaction deletes an object
    | Rows(refs: set<Key>)             // consumer, compaction: any change of the table
    | Begin
    | Page(keys: seq<Key>, more: bool)
    | EndListing
    | Lookup(n: nat)
    | Walk
    | Write(version: nat)
    | Fail                             // a listing, lookup or write that throws
    | Restart                          // the volatile state is gone

  /** The last key a listing has seen. */
  function Last(seen: seq<Key>, cursor: Key): Key { if seen == [] then cursor else seen[|seen| - 1] }

  function Rest(seen: seq<Key>, done: nat): set<Key> { set i | done <= i < |seen| :: seen[i] }

  /** How far the sweep in flight may move the watermark without listing anything more
      below: up to what it has listed, to the last original if it lists no more, to the
      first gap if it finds all the rest. */
  function Claimed(o: Order, l: Limits, s: State): Key {
    match s.sweep
    case Idle => s.Cursor()
    case Listing(seen, more) => Last(if more then seen else Uncompacted(o, seen), s.Cursor())
    case Looking(seen, done, existing) => Advanced(s.counts, seen, existing + Rest(seen, done), l.threshold, s.Cursor())
    case Writing(mark) => mark
  }

  /** A page: the next keys of the bucket after `from`, none left out. */
  ghost predicate IsPage(o: Order, objects: set<Key>, from: Key, keys: seq<Key>) {
    && Sorted(o, keys)
    && (forall k :: k in keys ==> k in objects && o.less(from, k))
    && (forall k :: k in objects && o.less(from, k) && !o.less(Last(keys, from), k) ==> k in keys)
  }

  /** Another page is asked for if there is room and the server has a token, which it
      does not have once no key is left. */
  ghost predicate PageFits(o: Order, l: Limits, s: State, keys: seq<Key>, more: bool)
    requires s.sweep.Listing?
  {
    var n, from := |s.sweep.seen| + |keys|, Last(s.sweep.seen, s.Cursor());
    && s.sweep.more && n <= l.max && IsPage(o, s.objects, from, keys)
    && (more ==> n < l.max)
    && (!more && n < l.max ==> forall k :: k in s.objects && o.less(from, k) ==> k in keys)
  }

  /** The hypotheses: originals are new and land above what the sweep in flight has
      claimed, and no two writes of the watermark share a version. */
  ghost predicate Enabled(o: Order, l: Limits, s: State, step: Step) {
    match step
    case Land(key) => !o.compacted(key) && key !in s.landed && o.less(Claimed(o, l, s), key)
    case Compact(key) => o.compacted(key)
    case Delete(key) => true
    case Rows(refs) => true
    case Begin => s.sweep.Idle?
    case Page(keys, more) => s.sweep.Listing? && PageFits(o, l, s, keys, more)
    case EndListing => s.sweep.Listing? && !s.sweep.more
    case Lookup(n) => s.sweep.Looking? && s.sweep.done + n <= |s.sweep.seen|
    case Walk => s.sweep.Looking? && s.sweep.done == |s.sweep.seen|
    case Write(version) => s.sweep.Writing? && forall m :: m in s.marks ==> m.version != version
    case Fail => true
    case Restart => true
  }

  /** What a lookup of the next `n` keys finds. */
  function Found(keys: seq<Key>, done: nat, n: nat, refs: set<Key>): set<Key>
    requires done + n <= |keys|
  {
    set i | done <= i < done + n && keys[i] in refs :: keys[i]
  }

  ghost function Next(o: Order, l: Limits, s: State, step: Step): State
    requires Enabled(o, l, s, step)
  {
    match step
    case Land(key) => Landed(s, key)
    case Compact(key) => s.(objects := s.objects + {key})
    case Delete(key) => Deleted(o, s, key)
    case Rows(refs) => s.(refs := refs)
    case Begin => s.(sweep := Listing([], l.max > 0))
    case Page(keys, more) => s.(sweep := Listing(s.sweep.seen + keys, more))
    case EndListing => s.(sweep := Looking(Uncompacted(o, s.sweep.seen), 0, {}))
    case Lookup(n) => AfterLookup(s, Found(s.sweep.seen, s.sweep.done, n, s.refs), n)
    case Walk => AfterWalk(l, s)
    case Write(version) => s.(sweep := Idle, marks := s.marks + [Mark(s.sweep.mark, version)])
    case Fail => s.(sweep := Idle)
    case Restart => s.(sweep := Idle, counts := map[])
  }

  function Landed(s: State, key: Key): State { s.(objects := s.objects + {key}, landed := s.landed + {key}) }

  function Deleted(o: Order, s: State, key: Key): State {
    var early := key in s.objects && !o.compacted(key) && !Settled(s, key);
    s.(objects := s.objects - {key}, lost := if early then s.lost + {key} else s.lost)
  }

  function AfterLookup(s: State, found: set<Key>, n: nat): State
    requires s.sweep.Looking?
  {
    s.(sweep := Looking(s.sweep.seen, s.sweep.done + n, s.sweep.existing + found), confirmed := s.confirmed + found)
  }

  function AfterWalk(l: Limits, s: State): State
    requires s.sweep.Looking?
  {
    var keys, existing := s.sweep.seen, s.sweep.existing;
    var mark := Advanced(s.counts, keys, existing, l.threshold, s.Cursor());
    s.(counts := CountsAfter(s.counts, keys, existing, l.threshold),
       quarantined := s.quarantined + GivenUp(s.counts, keys, existing, l.threshold),
       sweep := if mark == s.Cursor() then Idle else Writing(mark))
  }

  // -------------------------------------------------------------------- invariant

  /** Known to be ingested, or given up on. */
  predicate Settled(s: State, k: Key) { k in s.confirmed || k in s.quarantined }

  /** Every original that ever landed, up to `bound`, is settled, or was deleted before
      it was, or is in `keys`. */
  ghost predicate Covered(o: Order, s: State, bound: Key, keys: seq<Key>) {
    forall k :: k in s.landed && o.AtMost(k, bound) ==> Settled(s, k) || k in s.lost || k in keys
  }

  ghost predicate Above(o: Order, cursor: Key, keys: seq<Key>) {
    Sorted(o, keys) && forall k :: k in keys ==> o.less(cursor, k)
  }

  /** The originals among some keys have landed. */
  ghost predicate Known(o: Order, s: State, keys: seq<Key>) {
    forall k :: k in keys && !o.compacted(k) ==> k in s.landed
  }

  ghost predicate SweepOk(o: Order, l: Limits, s: State) {
    match s.sweep
    case Idle => true
    case Listing(seen, more) =>
      Above(o, s.Cursor(), seen) && Known(o, s, seen) && Covered(o, s, Claimed(o, l, s), seen)
          && (more ==> |seen| < l.max)
    case Looking(seen, done, existing) =>
      && Above(o, s.Cursor(), seen) && Known(o, s, seen) && Covered(o, s, Claimed(o, l, s), seen)
      && done <= |seen| && existing <= s.confirmed && (forall k :: k in seen ==> !o.compacted(k))
    case Writing(mark) => o.less(s.Cursor(), mark) && Covered(o, s, mark, [])
  }

  /** What is there, what has gone, and what is known of it. */
  ghost predicate Accounted(o: Order, s: State) {
    && (forall k :: k in s.objects && !o.compacted(k) ==> k in s.landed && k !in s.lost)
    && (forall k :: k in s.landed ==> !o.compacted(k))
    && (forall k :: k in s.landed && k !in s.objects ==> Settled(s, k) || k in s.lost)
    && s.lost <= s.landed && s.confirmed <= s.landed && s.quarantined <= s.landed
  }

  /** No archived object at or below the watermark is forgotten. */
  ghost predicate Inv(o: Order, l: Limits, s: State) {
    Accounted(o, s) && Covered(o, s, s.Cursor(), []) && SweepOk(o, l, s)
  }

  /** The claim is never behind the watermark. */
  lemma ClaimIsAhead(o: TotalOrder, l: Limits, s: State)
    requires SweepOk(o, l, s)
    ensures o.AtMost(s.Cursor(), Claimed(o, l, s))
  {
    if s.sweep.Looking? {
      AdvancedIsIn(o, s.counts, s.sweep.seen, s.sweep.existing + Rest(s.sweep.seen, s.sweep.done), l.threshold,
          s.Cursor());
    }
  }

  lemma AdvancedIsIn(o: Order, counts: Counts, keys: seq<Key>, existing: set<Key>, threshold: nat, cursor: Key)
    ensures var mark := Advanced(counts, keys, existing, threshold, cursor); mark == cursor || mark in keys
  {
  }

  lemma PageKeepsSweep(o: TotalOrder, l: Limits, s: State, keys: seq<Key>, more: bool)
    requires Inv(o, l, s) && Enabled(o, l, s, Page(keys, more))
    ensures Inv(o, l, Next(o, l, s, Page(keys, more)))
  {
    var t := Next(o, l, s, Page(keys, more));
    var seen, cursor := s.sweep.seen, s.Cursor();
    PageIsAbove(o, cursor, seen, keys);
    ClaimIsInPage(o, cursor, seen, keys, more);
    forall k | k in t.landed && o.AtMost(k, Claimed(o, l, t))
      ensures Settled(t, k) || k in t.lost || k in seen + keys
    {
      PageHas(o, s, keys, Last(seen, cursor), seen, k);
    }
  }

  lemma ClaimIsInPage(o: TotalOrder, cursor: Key, seen: seq<Key>, keys: seq<Key>, more: bool)
    requires Above(o, cursor, seen + keys)
    ensures var mark := Last(if more then seen + keys else Uncompacted(o, seen + keys), cursor);
            forall k :: o.AtMost(k, mark) ==> !o.less(Last(keys, Last(seen, cursor)), k)
  {
    ClaimIsListed(o, cursor, seen + keys, more);
    assert Last(seen + keys, cursor) == Last(keys, Last(seen, cursor));
  }

  /** What is claimed after a page was claimed before or is in the page. */
  lemma PageHas(o: TotalOrder, s: State, keys: seq<Key>, from: Key, seen: seq<Key>, k: Key)
    requires Accounted(o, s) && Covered(o, s, from, seen) && IsPage(o, s.objects, from, keys)
    requires k in s.landed && !o.less(Last(keys, from), k)
    ensures Settled(s, k) || k in s.lost || k in seen + keys
  {
    if !o.less(from, k) {
      assert o.AtMost(k, from);
    }
  }

  lemma PageIsAbove(o: TotalOrder, cursor: Key, seen: seq<Key>, keys: seq<Key>)
    requires Above(o, cursor, seen) && Above(o, Last(seen, cursor), keys)
    ensures Above(o, cursor, seen + keys)
  {
    var all, from := seen + keys, Last(seen, cursor);
    forall k | k in seen ensures o.AtMost(k, from) {
      var i :| 0 <= i < |seen| && seen[i] == k;
    }
    forall i, j | 0 <= i < j < |all| ensures o.less(all[i], all[j]) {
      if i < |seen| <= j {
        assert all[i] in seen && all[j] in keys;
      }
    }
    forall k | k in all ensures o.less(cursor, k) {
      assert k in seen || k in keys;
      assert seen != [] ==> from in seen;
    }
  }

  /** A listing claims nothing beyond its last key. */
  lemma ClaimIsListed(o: TotalOrder, cursor: Key, seen: seq<Key>, more: bool)
    requires Above(o, cursor, seen)
    ensures o.AtMost(Last(if more then seen else Uncompacted(o, seen), cursor), Last(seen, cursor))
  {
    var keys := Uncompacted(o, seen);
    if keys != [] {
      assert keys[|keys| - 1] in seen;
      var i :| 0 <= i < |seen| && seen[i] == keys[|keys| - 1];
      assert o.AtMost(seen[i], Last(seen, cursor));
    }
    if seen != [] {
      assert seen[|seen| - 1] in seen;
    }
  }

  /** With every key found the watermark goes to the last. */
  lemma AllFound(counts: Counts, keys: seq<Key>, existing: set<Key>, threshold: nat, cursor: Key)
    requires forall k :: k in keys ==> k in existing
    ensures Advanced(counts, keys, existing, threshold, cursor) == Last(keys, cursor)
  {
    FirstBlockingIs(counts, keys, existing, threshold);
  }

  lemma EndListingKeepsInv(o: TotalOrder, l: Limits, s: State)
    requires Inv(o, l, s) && Enabled(o, l, s, EndListing)
    ensures Inv(o, l, Next(o, l, s, EndListing))
    ensures Claimed(o, l, Next(o, l, s, EndListing)) == Claimed(o, l, s)
  {
    var keys := Uncompacted(o, s.sweep.seen);
    UncompactedIsSorted(o, s.sweep.seen);
    AllFound(s.counts, keys, {} + Rest(keys, 0), l.threshold, s.Cursor());
  }

  lemma {:induction false} BlockingIsMonotone(counts: Counts, keys: seq<Key>, less: set<Key>, more: set<Key>,
        threshold: nat)
    requires forall k :: k in keys && k in less ==> k in more
    ensures FirstBlocking(counts, keys, less, threshold) <= FirstBlocking(counts, keys, more, threshold)
  {
    if keys != [] && !Blocks(counts, less, threshold, keys[0]) {
      BlockingIsMonotone(counts, keys[1..], less, more, threshold);
    }
  }

  /** The more is found the further the watermark moves. */
  lemma AdvancedIsMonotone(o: TotalOrder, counts: Counts, keys: seq<Key>, less: set<Key>, more: set<Key>,
        threshold: nat, cursor: Key)
    requires Above(o, cursor, keys) && forall k :: k in keys && k in less ==> k in more
    ensures o.AtMost(Advanced(counts, keys, less, threshold, cursor), Advanced(counts, keys, more, threshold, cursor))
  {
    BlockingIsMonotone(counts, keys, less, more, threshold);
    var i, j := FirstBlocking(counts, keys, less, threshold), FirstBlocking(counts, keys, more, threshold);
    if 0 < i < j {
      assert o.less(keys[i - 1], keys[j - 1]);
    } else if i < j {
      assert keys[j - 1] in keys;
    }
  }

  lemma LookupKeepsInv(o: TotalOrder, l: Limits, s: State, n: nat)
    requires Inv(o, l, s) && Enabled(o, l, s, Lookup(n))
    ensures Inv(o, l, Next(o, l, s, Lookup(n)))
  {
    FoundKeepsInv(o, l, s, Found(s.sweep.seen, s.sweep.done, n, s.refs), n);
  }

  lemma FoundKeepsInv(o: TotalOrder, l: Limits, s: State, found: set<Key>, n: nat)
    requires Inv(o, l, s) && s.sweep.Looking? && s.sweep.done + n <= |s.sweep.seen|
    requires forall k :: k in found ==> k in Rest(s.sweep.seen, s.sweep.done) && k in s.sweep.seen
    ensures Inv(o, l, AfterLookup(s, found, n))
  {
    var t := AfterLookup(s, found, n);
    var seen := s.sweep.seen;
    var less, more := t.sweep.existing + Rest(seen, t.sweep.done), s.sweep.existing + Rest(seen, s.sweep.done);
    AdvancedIsMonotone(o, s.counts, seen, less, more, l.threshold, s.Cursor());
    forall k | k in t.landed && o.AtMost(k, Claimed(o, l, t)) ensures Settled(t, k) || k in t.lost || k in seen {
      assert o.AtMost(k, Claimed(o, l, s));
    }
    assert Accounted(o, t);
  }

  lemma WalkKeepsInv(o: TotalOrder, l: Limits, s: State)
    requires Inv(o, l, s) && Enabled(o, l, s, Walk)
    ensures Inv(o, l, Next(o, l, s, Walk))
  {
    var keys, existing, counts, cursor := s.sweep.seen, s.sweep.existing, s.counts, s.Cursor();
    var t := AfterWalk(l, s);
    assert existing + Rest(keys, |keys|) == existing;
    AdvancedIsIn(o, counts, keys, existing, l.threshold, cursor);
    forall k | k in t.landed && o.AtMost(k, Claimed(o, l, s)) ensures Settled(t, k) || k in t.lost {
      WalkSettles(o, l, s, k);
    }
  }

  lemma WalkSettles(o: TotalOrder, l: Limits, s: State, k: Key)
    requires Inv(o, l, s) && s.sweep.Looking? && s.sweep.done == |s.sweep.seen|
    requires k in s.landed && o.AtMost(k, Claimed(o, l, s))
    ensures Settled(AfterWalk(l, s), k) || k in s.lost
  {
    var keys, existing := s.sweep.seen, s.sweep.existing;
    assert existing + Rest(keys, |keys|) == existing;
    if k in keys {
      PassedIsFree(o, s.counts, keys, existing, l.threshold, s.Cursor(), k);
    }
  }

  /** The watermark passes no key that blocks. */
  lemma PassedIsFree(o: TotalOrder, counts: Counts, keys: seq<Key>, existing: set<Key>, threshold: nat, cursor: Key,
        k: Key)
    requires Above(o, cursor, keys) && k in keys
    requires o.AtMost(k, Advanced(counts, keys, existing, threshold, cursor))
    ensures !Blocks(counts, existing, threshold, k)
  {
    FirstBlockingIs(counts, keys, existing, threshold);
    var i := FirstBlocking(counts, keys, existing, threshold);
    var j :| 0 <= j < |keys| && keys[j] == k;
    assert j < i;
  }

  lemma WriteKeepsInv(o: TotalOrder, l: Limits, s: State, version: nat)
    requires Inv(o, l, s) && Enabled(o, l, s, Write(version))
    ensures Inv(o, l, Next(o, l, s, Write(version)))
    ensures var t := Next(o, l, s, Write(version)); t.Cursor() == s.Cursor() || t.Cursor() == s.sweep.mark
  {
    LatestSnoc(s.marks, Mark(s.sweep.mark, version));
    WrittenKeepsInv(o, l, s, s.marks + [Mark(s.sweep.mark, version)]);
  }

  /** The row that is read after a write is the one before or the one written. */
  lemma LatestSnoc(marks: seq<Mark>, m: Mark)
    ensures Latest(marks + [m]) == Latest(marks) || Latest(marks + [m]) == m
  {
    assert (marks + [m])[..|marks|] == marks;
  }

  lemma WrittenKeepsInv(o: TotalOrder, l: Limits, s: State, marks: seq<Mark>)
    requires Inv(o, l, s) && s.sweep.Writing?
    requires Latest(marks).key == s.Cursor() || Latest(marks).key == s.sweep.mark
    ensures Inv(o, l, s.(sweep := Idle, marks := marks))
  {
  }

  lemma LandKeepsInv(o: TotalOrder, l: Limits, s: State, key: Key)
    requires Inv(o, l, s) && Enabled(o, l, s, Land(key))
    ensures Inv(o, l, Next(o, l, s, Land(key)))
  {
    ClaimIsAhead(o, l, s);
  }

  lemma DeleteKeepsInv(o: TotalOrder, l: Limits, s: State, key: Key)
    requires Inv(o, l, s)
    ensures Inv(o, l, Deleted(o, s, key))
  {
  }

  lemma OutsideKeepsInv(o: TotalOrder, l: Limits, s: State, step: Step)
    requires Inv(o, l, s) && Enabled(o, l, s, step)
    requires step.Compact? || step.Rows? || step.Begin? || step.Fail? || step.Restart?
    ensures Inv(o, l, Next(o, l, s, step))
  {
    var t := Next(o, l, s, step);
    assert t.Cursor() == s.Cursor();
  }

  lemma StepKeepsInv(o: TotalOrder, l: Limits, s: State, step: Step)
    requires Inv(o, l, s) && Enabled(o, l, s, step)
    ensures Inv(o, l, Next(o, l, s, step))
  {
    match step
    case Land(key) => LandKeepsInv(o, l, s, key);
    case Delete(key) => DeleteKeepsInv(o, l, s, key);
    case Page(keys, more) => PageKeepsSweep(o, l, s, keys, more);
    case EndListing => EndListingKeepsInv(o, l, s);
    case Lookup(n) => LookupKeepsInv(o, l, s, n);
    case Walk => WalkKeepsInv(o, l, s);
    case Write(version) => WriteKeepsInv(o, l, s, version);
    case _ => OutsideKeepsInv(o, l, s, step);
  }

  // ------------------------------------------------------------------------- runs

  ghost predicate Moves(o: Order, l: Limits, s: State, t: State) {
    exists step :: Enabled(o, l, s, step) && t == Next(o, l, s, step)
  }

  ghost function Steps(o: Order, l: Limits): (State, State) -> bool { (s, t) => Moves(o, l, s, t) }

  /** The watermark does not go back, and nothing settled is unsettled. */
  ghost predicate Later(o: Order, s: State, t: State) {
    o.AtMost(s.Cursor(), t.Cursor()) && s.confirmed <= t.confirmed && s.quarantined <= t.quarantined
  }

  lemma StepIsLater(o: TotalOrder, l: Limits, s: State, step: Step)
    requires (s.sweep.Writing? ==> o.less(s.Cursor(), s.sweep.mark)) && Enabled(o, l, s, step)
    ensures Later(o, s, Next(o, l, s, step))
  {
    if step.Write? {
      LatestSnoc(s.marks, Mark(s.sweep.mark, step.version));
    }
  }

  lemma MoveKeeps(o: TotalOrder, l: Limits, s: State, t: State)
    requires Inv(o, l, s) && Moves(o, l, s, t)
    ensures Inv(o, l, t) && Later(o, s, t)
  {
    var step :| Enabled(o, l, s, step) && t == Next(o, l, s, step);
    StepKeepsInv(o, l, s, step);
    StepIsLater(o, l, s, step);
  }

  lemma RunKeepsAll(o: TotalOrder, l: Limits, s: State, t: State)
    requires Inv(o, l, s) && Run(Steps(o, l), s, t)
    ensures Inv(o, l, t) && Later(o, s, t)
  {
    var inv := u => Inv(o, l, u) && Later(o, s, u);
    forall a, b {:trigger Steps(o, l)(a, b)} | inv(a) && Steps(o, l)(a, b) ensures inv(b) {
      MoveKeeps(o, l, a, b);
    }
    RunKeeps(Steps(o, l), inv, s, t);
  }

  ghost predicate Init(o: Order, s: State) {
    && s.sweep == Idle && s.marks == [] && s.lost == {} && s.confirmed == {} && s.quarantined == {}
    && s.landed == (set k | k in s.objects && !o.compacted(k)) && forall k :: k in s.objects ==> o.less("", k)
  }

  /** Passed by the watermark without having been found or given up on. */
  ghost predicate Forgotten(o: Order, s: State, k: Key) { o.AtMost(k, s.Cursor()) && !Settled(s, k) }

  /** Over every run: the watermark never decreases, and every original that ever
      landed at or below it was found in the table by some sweep, or quarantined, or
      deleted before either. */
  lemma NothingIsForgotten(o: TotalOrder, l: Limits, start: State, s: State, t: State)
    requires Init(o, start) && Run(Steps(o, l), start, s) && Run(Steps(o, l), s, t)
    ensures o.AtMost(s.Cursor(), t.Cursor())
    ensures forall k ::
            k in t.landed && o.AtMost(k, t.Cursor())
            ==> k in t.confirmed || k in t.quarantined || k in t.lost
    ensures forall k :: k in t.lost ==> k in t.landed && k !in t.objects
  {
    RunKeepsAll(o, l, start, s);
    RunKeepsAll(o, l, s, t);
  }

  /** What a sweep has found was in the table when that sweep looked it up. */
  lemma ConfirmedWasThere(o: TotalOrder, l: Limits, s: State, t: State, k: Key) returns (u: State)
    requires Run(Steps(o, l), s, t) && k in t.confirmed && k !in s.confirmed
    ensures Run(Steps(o, l), s, u) && Run(Steps(o, l), u, t) && u.sweep.Looking? && k in u.sweep.seen && k in u.refs
  {
    var n: nat :| Reaches(Steps(o, l), s, t, n);
    u := ReachConfirms(Steps(o, l), o, l, s, t, k, n);
  }

  ghost predicate IsThere(u: State, k: Key) { u.sweep.Looking? && k in u.sweep.seen && k in u.refs }

  lemma MoveConfirms(o: TotalOrder, l: Limits, s: State, t: State, k: Key)
    requires Moves(o, l, s, t) && k in t.confirmed && k !in s.confirmed
    ensures IsThere(s, k)
  {
    var step :| Enabled(o, l, s, step) && t == Next(o, l, s, step);
    assert step.Lookup?;
  }

  lemma {:induction false} ReachConfirms(steps: (State, State) -> bool, o: TotalOrder, l: Limits, s: State, t: State,
        k: Key, n: nat) returns (u: State)
    requires forall a, b {:trigger steps(a, b)} :: steps(a, b) ==> Moves(o, l, a, b)
    requires Reaches(steps, s, t, n) && k in t.confirmed && k !in s.confirmed
    ensures Run(steps, s, u) && Run(steps, u, t) && IsThere(u, k)
    decreases n
  {
    u :| Reaches(steps, s, u, n - 1) && steps(u, t);
    if k in u.confirmed {
      var v := u;
      u := ReachConfirms(steps, o, l, s, v, k, n - 1);
      Then(steps, u, v, t);
    } else {
      MoveConfirms(o, l, u, t, k);
      Nothing(steps, u);
      Then(steps, u, u, t);
    }
  }

  /** A lookup finds those of its keys that the table has, and no others. */
  lemma FoundIs(keys: seq<Key>, done: nat, n: nat, refs: set<Key>, k: Key)
    requires done + n <= |keys|
    ensures k in Found(keys, done, n, refs) <==> k in keys[done..done + n] && k in refs
  {
    if k in keys[done..done + n] {
      var i :| 0 <= i < n && keys[done..done + n][i] == k;
      assert keys[done + i] == k;
    }
    if k in Found(keys, done, n, refs) {
      var i :| done <= i < done + n && keys[i] in refs && keys[i] == k;
      assert keys[done..done + n][i - done] == k;
    }
  }

  // ---------------------------------------------------------- runs and their rounds

  /** A run so far: where it is, and the rounds that its walks have made. */
  datatype Tracked = Tracked(state: State, rounds: seq<Round>)

  /** A walk is a round; a restart forgets the rounds before. */
  function RoundsAfter(s: State, step: Step, rounds: seq<Round>): seq<Round> {
    if step.Walk? && s.sweep.Looking? then rounds + [Round(s.sweep.seen, s.sweep.existing)]
    else if step.Restart? then rounds + [Restarted]
    else rounds
  }

  ghost predicate Tracks(o: Order, l: Limits, x: Tracked, y: Tracked) {
    exists step :: Enabled(o, l, x.state, step)
      && y == Tracked(Next(o, l, x.state, step), RoundsAfter(x.state, step, x.rounds))
  }

  ghost function TrackedSteps(o: Order, l: Limits): (Tracked, Tracked) -> bool { (x, y) => Tracks(o, l, x, y) }

  /** Every run has its rounds. */
  lemma RunHasRounds(o: Order, l: Limits, s: State, t: State) returns (rounds: seq<Round>)
    requires Run(Steps(o, l), s, t)
    ensures Run(TrackedSteps(o, l), Tracked(s, []), Tracked(t, rounds))
  {
    var k: nat :| Reaches(Steps(o, l), s, t, k);
    rounds := ReachHasRounds(Steps(o, l), TrackedSteps(o, l), o, l, s, t, k);
  }

  lemma MoveIsTracked(o: Order, l: Limits, s: State, t: State, before: seq<Round>) returns (rounds: seq<Round>)
    requires Moves(o, l, s, t)
    ensures Tracks(o, l, Tracked(s, before), Tracked(t, rounds))
  {
    var step :| Enabled(o, l, s, step) && t == Next(o, l, s, step);
    rounds := RoundsAfter(s, step, before);
  }

  lemma {:induction false} ReachHasRounds(steps: (State, State) -> bool, tracked: (Tracked, Tracked) -> bool, o: Order,
        l: Limits, s: State, t: State, k: nat) returns (rounds: seq<Round>)
    requires forall a, b {:trigger steps(a, b)} :: steps(a, b) ==> Moves(o, l, a, b)
    requires forall x, y {:trigger tracked(x, y)} :: Tracks(o, l, x, y) ==> tracked(x, y)
    requires Reaches(steps, s, t, k)
    ensures Run(tracked, Tracked(s, []), Tracked(t, rounds))
    decreases k
  {
    rounds := [];
    if k == 0 {
      Nothing(tracked, Tracked(s, []));
    } else {
      var u :| Reaches(steps, s, u, k - 1) && steps(u, t);
      var before := ReachHasRounds(steps, tracked, o, l, s, u, k - 1);
      rounds := MoveIsTracked(o, l, u, t, before);
      assert tracked(Tracked(u, before), Tracked(t, rounds));
      Then(tracked, Tracked(s, []), Tracked(u, before), Tracked(t, rounds));
    }
  }

  /** Round `i` lists a key and misses it once too often. */
  predicate GivenUpIn(rounds: seq<Round>, threshold: nat, k: Key, i: nat) {
    i < |rounds| && rounds[i].Round? && k in rounds[i].keys && k !in rounds[i].existing
    && TooOften(rounds[..i + 1], threshold, k)
  }

  ghost predicate GivenUpSometime(rounds: seq<Round>, threshold: nat, k: Key) {
    exists i: nat :: GivenUpIn(rounds, threshold, k, i)
  }

  /** The counts are those of the rounds, and so is what is quarantined. */
  ghost predicate RoundsOk(l: Limits, x: Tracked) {
    x.state.counts == CountsOver(x.rounds, l.threshold)
    && forall k :: k in x.state.quarantined <==> GivenUpSometime(x.rounds, l.threshold, k)
  }

  lemma GivenUpMore(rounds: seq<Round>, round: Round, threshold: nat, k: Key)
    ensures GivenUpSometime(rounds + [round], threshold, k)
       <==> GivenUpSometime(rounds, threshold, k) || GivenUpIn(rounds + [round], threshold, k, |rounds|)
  {
    forall i: nat | i < |rounds|
      ensures GivenUpIn(rounds + [round], threshold, k, i) <==> GivenUpIn(rounds, threshold, k, i)
    {
      assert (rounds + [round])[..i + 1] == rounds[..i + 1];
    }
  }

  lemma WalkKeepsRounds(o: Order, l: Limits, x: Tracked)
    requires RoundsOk(l, x) && Enabled(o, l, x.state, Walk)
    ensures RoundsOk(l, Tracked(Next(o, l, x.state, Walk), RoundsAfter(x.state, Walk, x.rounds)))
  {
    var keys, existing := x.state.sweep.seen, x.state.sweep.existing;
    var t, more := Next(o, l, x.state, Walk), x.rounds + [Round(keys, existing)];
    assert more[..|x.rounds|] == x.rounds && more[..|more|] == more;
    forall k ensures k in t.quarantined <==> GivenUpSometime(more, l.threshold, k) {
      GivenUpIff(x.rounds, l.threshold, keys, existing, k);
      GivenUpMore(x.rounds, Round(keys, existing), l.threshold, k);
    }
  }

  lemma TrackKeepsRounds(o: Order, l: Limits, x: Tracked, y: Tracked)
    requires RoundsOk(l, x) && Tracks(o, l, x, y)
    ensures RoundsOk(l, y)
  {
    var step :| Enabled(o, l, x.state, step)
                && y == Tracked(Next(o, l, x.state, step), RoundsAfter(x.state, step, x.rounds));
    if step.Walk? {
      WalkKeepsRounds(o, l, x);
    } else if step.Restart? {
      RestartKeepsRounds(o, l, x);
    } else {
      OthersKeepRounds(o, l, x.state, step);
    }
  }

  lemma RestartKeepsRounds(o: Order, l: Limits, x: Tracked)
    requires RoundsOk(l, x)
    ensures RoundsOk(l, Tracked(Next(o, l, x.state, Restart), RoundsAfter(x.state, Restart, x.rounds)))
  {
    forall k
      ensures GivenUpSometime(x.rounds + [Restarted], l.threshold, k) <==> GivenUpSometime(x.rounds, l.threshold, k)
    {
      GivenUpMore(x.rounds, Restarted, l.threshold, k);
    }
  }

  lemma OthersKeepRounds(o: Order, l: Limits, s: State, step: Step)
    requires Enabled(o, l, s, step) && !step.Walk? && !step.Restart?
    ensures Next(o, l, s, step).counts == s.counts && Next(o, l, s, step).quarantined == s.quarantined
    ensures forall rounds :: RoundsAfter(s, step, rounds) == rounds
  {
  }

  lemma TrackKeepsInv(o: TotalOrder, l: Limits, x: Tracked, y: Tracked)
    requires Inv(o, l, x.state) && Tracks(o, l, x, y)
    ensures Inv(o, l, y.state)
  {
    var step :| Enabled(o, l, x.state, step)
                && y == Tracked(Next(o, l, x.state, step), RoundsAfter(x.state, step, x.rounds));
    StepKeepsInv(o, l, x.state, step);
  }

  /** A gap is retried before it is given up: over every run, a key is quarantined exactly
      when some walk listed it and missed it for the `threshold`-th time since it was last
      found or the process restarted (or for twice as many, and so on). So every original
      up to the watermark was found, or missed that often, or deleted before either. */
  lemma QuarantinedIff(o: TotalOrder, l: Limits, start: State, t: State, rounds: seq<Round>)
    requires Init(o, start) && start.counts == map[]
    requires Run(TrackedSteps(o, l), Tracked(start, []), Tracked(t, rounds))
    ensures forall k :: k in t.quarantined <==> GivenUpSometime(rounds, l.threshold, k)
    ensures forall k :: Misses(t.counts, k) == Missed(rounds, k) % Patience(l.threshold)
    ensures forall k :: k in t.landed && o.AtMost(k, t.Cursor())
              ==> k in t.confirmed || k in t.lost || GivenUpSometime(rounds, l.threshold, k)
  {
    var steps, inv := TrackedSteps(o, l), (x: Tracked) => RoundsOk(l, x) && Inv(o, l, x.state);
    forall a, b {:trigger steps(a, b)} | inv(a) && steps(a, b) ensures inv(b) {
      TrackKeepsRounds(o, l, a, b);
      TrackKeepsInv(o, l, a, b);
    }
    RunKeeps(steps, inv, Tracked(start, []), Tracked(t, rounds));
    forall k ensures Misses(t.counts, k) == Missed(rounds, k) % Patience(l.threshold) {
      MissesAreCounted(rounds, l.threshold, k);
    }
  }

  /** What `ListObjectKeys` returns is such a page, the last one if it is not full. */
  lemma ListingIsPage(o: TotalOrder, bucket: seq<Key>, objects: set<Key>, cursor: Key, max: nat)
    requires Sorted(o, bucket) && objects == set k | k in bucket
    ensures var keys := Take(After(o, bucket, cursor), max);
            && |keys| <= max && IsPage(o, objects, cursor, keys)
            && (|keys| < max ==> forall k :: k in objects && o.less(cursor, k) ==> k in keys)
  {
    var rest := After(o, bucket, cursor);
    AfterIs(o, bucket, cursor);
    forall k | k in rest && !o.less(Last(Take(rest, max), cursor), k) ensures k in Take(rest, max) {
      TakenFirst(o, rest, max, cursor, k);
    }
  }

  lemma TakenFirst(o: TotalOrder, rest: seq<Key>, max: nat, cursor: Key, k: Key)
    requires Sorted(o, rest) && k in rest && o.less(cursor, k) && !o.less(Last(Take(rest, max), cursor), k)
    ensures k in Take(rest, max)
  {
    var keys := Take(rest, max);
    var i :| 0 <= i < |rest| && rest[i] == k;
    assert i < |keys| ==> keys[i] == k;
    assert keys != [] ==> keys[|keys| - 1] == rest[|keys| - 1];
  }

  // ------------------------------------------------ why originals must land above

  /** An unsettled original at or below the watermark, and no sweep that would list it. */
  ghost predicate PassedOver(o: Order, s: State, k: Key) {
    && Forgotten(o, s, k)
    && match s.sweep
       case Idle => true
       case Listing(seen, _) => Above(o, s.Cursor(), seen)
       case Looking(seen, done, existing) => Above(o, s.Cursor(), seen)
       case Writing(mark) => o.less(s.Cursor(), mark)
  }

  lemma OutsideKeepsPassedOver(o: TotalOrder, l: Limits, s: State, step: Step, k: Key)
    requires PassedOver(o, s, k) && Enabled(o, l, s, step)
    requires step.Land? || step.Compact? || step.Delete? || step.Rows? || step.Begin? || step.Fail? || step.Restart?
    ensures PassedOver(o, Next(o, l, s, step), k)
  {
  }

  lemma LookupKeepsPassedOver(o: TotalOrder, l: Limits, s: State, n: nat, k: Key)
    requires PassedOver(o, s, k) && Enabled(o, l, s, Lookup(n))
    ensures PassedOver(o, Next(o, l, s, Lookup(n)), k)
  {
  }

  lemma WalkKeepsPassedOver(o: TotalOrder, l: Limits, s: State, k: Key)
    requires PassedOver(o, s, k) && Enabled(o, l, s, Walk)
    ensures PassedOver(o, Next(o, l, s, Walk), k)
  {
    AdvancedIsIn(o, s.counts, s.sweep.seen, s.sweep.existing, l.threshold, s.Cursor());
  }

  lemma PageKeepsPassedOver(o: TotalOrder, l: Limits, s: State, keys: seq<Key>, more: bool, k: Key)
    requires PassedOver(o, s, k) && Enabled(o, l, s, Page(keys, more))
    ensures PassedOver(o, Next(o, l, s, Page(keys, more)), k)
  {
    PageIsAbove(o, s.Cursor(), s.sweep.seen, keys);
  }

  lemma EndListingKeepsPassedOver(o: TotalOrder, l: Limits, s: State, k: Key)
    requires PassedOver(o, s, k) && Enabled(o, l, s, EndListing)
    ensures PassedOver(o, Next(o, l, s, EndListing), k)
  {
    UncompactedIsSorted(o, s.sweep.seen);
  }

  lemma WriteKeepsPassedOver(o: TotalOrder, l: Limits, s: State, version: nat, k: Key)
    requires PassedOver(o, s, k) && Enabled(o, l, s, Write(version))
    ensures PassedOver(o, Next(o, l, s, Write(version)), k)
  {
    assert Next(o, l, s, Write(version)).marks[..|s.marks|] == s.marks;
  }

  lemma StepKeepsPassedOver(o: TotalOrder, l: Limits, s: State, step: Step, k: Key)
    requires PassedOver(o, s, k) && Enabled(o, l, s, step)
    ensures PassedOver(o, Next(o, l, s, step), k)
  {
    match step
    case Page(keys, more) => PageKeepsPassedOver(o, l, s, keys, more, k);
    case EndListing => EndListingKeepsPassedOver(o, l, s, k);
    case Write(version) => WriteKeepsPassedOver(o, l, s, version, k);
    case Walk => WalkKeepsPassedOver(o, l, s, k);
    case Lookup(n) => LookupKeepsPassedOver(o, l, s, n, k);
    case _ => OutsideKeepsPassedOver(o, l, s, step, k);
  }

  lemma MoveKeepsPassedOver(o: TotalOrder, l: Limits, s: State, t: State, k: Key)
    requires PassedOver(o, s, k) && Moves(o, l, s, t)
    ensures PassedOver(o, t, k)
  {
    var step :| Enabled(o, l, s, step) && t == Next(o, l, s, step);
    StepKeepsPassedOver(o, l, s, step, k);
  }

  /** An original that lands at or below the watermark is forgotten for good: no
      sweep of any run finds it or gives it up. */
  lemma LandingBelowIsForgotten(o: TotalOrder, l: Limits, s: State, k: Key, t: State)
    requires Inv(o, l, s) && k !in s.landed && o.AtMost(k, s.Cursor())
    requires Run(Steps(o, l), Landed(s, k), t)
    ensures Forgotten(o, t, k)
  {
    var inv := u => PassedOver(o, u, k);
    forall a, b {:trigger Steps(o, l)(a, b)} | inv(a) && Steps(o, l)(a, b) ensures inv(b) {
      MoveKeepsPassedOver(o, l, a, b, k);
    }
    RunKeeps(Steps(o, l), inv, Landed(s, k), t);
  }

  // ---------------------------------------------------- runs that move the watermark

  ghost predicate Tops(o: Order, keys: set<Key>, j: Key) { !o.compacted(j) && forall k :: k in keys ==> o.less(k, j) }

  ghost predicate HasTop(o: Order, keys: set<Key>) { exists j :: Tops(o, keys, j) }

  /** There is always a greater original. */
  ghost predicate Unbounded(o: Order) { forall keys: set<Key> :: HasTop(o, keys) }

  /** `t` differs from `s` in nothing that concerns the keys outside `seen`. */
  ghost predicate Leaves(s: State, t: State, seen: set<Key>) {
    forall k :: k !in seen ==> (Settled(t, k) <==> Settled(s, k))
  }

  function Elements(keys: seq<Key>): set<Key> { set k | k in keys }

  lemma ByStep(o: Order, l: Limits, s: State, t: State, step: Step, u: State)
    requires Run(Steps(o, l), s, t) && Enabled(o, l, t, step) && u == Next(o, l, t, step)
    ensures Run(Steps(o, l), s, u)
  {
    assert Moves(o, l, t, u);
    Then(Steps(o, l), s, t, u);
  }

  /** Every version that was written is lower. */
  lemma NewVersion(marks: seq<Mark>) returns (version: nat)
    ensures forall m :: m in marks ==> m.version < version
  {
    version := Latest(marks).version + 1;
  }

  lemma Written(o: Order, l: Limits, start: State, s: State) returns (t: State)
    requires Run(Steps(o, l), start, s) && s.sweep.Writing?
    ensures Run(Steps(o, l), start, t) && t.Cursor() == s.sweep.mark && t.objects == s.objects
    ensures t.confirmed == s.confirmed && t.quarantined == s.quarantined
  {
    var version := NewVersion(s.marks);
    t := Next(o, l, s, Write(version));
    ByStep(o, l, start, s, Write(version), t);
    assert t.marks[..|s.marks|] == s.marks;
    assert Mark(s.sweep.mark, version) in t.marks;
  }

  lemma RestIsFound(seen: seq<Key>, done: nat, rest: set<Key>)
    requires done <= |seen| && rest == Rest(seen, done)
    ensures Found(seen, done, |seen| - done, rest) == rest
  {
  }

  lemma LookupIs(o: Order, l: Limits, s: State, n: nat, found: set<Key>)
    requires s.sweep.Looking? && s.sweep.done + n <= |s.sweep.seen|
    requires found == Found(s.sweep.seen, s.sweep.done, n, s.refs)
    ensures Moves(o, l, s, AfterLookup(s, found, n))
  {
    assert Enabled(o, l, s, Lookup(n)) && AfterLookup(s, found, n) == Next(o, l, s, Lookup(n));
  }

  lemma RestMoves(o: Order, l: Limits, s: State)
    requires s.sweep.Looking? && s.sweep.done <= |s.sweep.seen| && s.refs == Rest(s.sweep.seen, s.sweep.done)
    ensures Moves(o, l, s, AfterLookup(s, s.refs, |s.sweep.seen| - s.sweep.done))
  {
    RestIsFound(s.sweep.seen, s.sweep.done, s.refs);
    LookupIs(o, l, s, |s.sweep.seen| - s.sweep.done, s.refs);
  }

  lemma RowsMove(o: Order, l: Limits, s: State, refs: set<Key>)
    ensures Moves(o, l, s, s.(refs := refs))
  {
    assert Enabled(o, l, s, Rows(refs)) && s.(refs := refs) == Next(o, l, s, Rows(refs));
  }

  /** The lookup finds all that is left to be looked up. */
  lemma LookedUp(o: Order, l: Limits, start: State, s: State, rest: set<Key>) returns (t: State)
    requires Run(Steps(o, l), start, s) && s.sweep.Looking? && s.sweep.done <= |s.sweep.seen|
    requires rest == Rest(s.sweep.seen, s.sweep.done)
    ensures Run(Steps(o, l), start, t)
    ensures t == AfterLookup(s.(refs := rest), rest, |s.sweep.seen| - s.sweep.done)
  {
    var there := s.(refs := rest);
    RowsMove(o, l, s, rest);
    Then(Steps(o, l), start, s, there);
    RestMoves(o, l, there);
    t := AfterLookup(there, rest, |s.sweep.seen| - s.sweep.done);
    Then(Steps(o, l), start, there, t);
  }

  /** A sweep that has listed can move the watermark as far as it claims. */
  lemma Finished(o: TotalOrder, l: Limits, start: State, s: State) returns (t: State)
    requires Run(Steps(o, l), start, s) && s.sweep.Looking? && s.sweep.done <= |s.sweep.seen|
    requires Claimed(o, l, s) != s.Cursor()
    ensures Run(Steps(o, l), start, t) && t.Cursor() == Claimed(o, l, s) && t.objects == s.objects
    ensures Leaves(s, t, Elements(s.sweep.seen))
  {
    var found := LookedUp(o, l, start, s, Rest(s.sweep.seen, s.sweep.done));
    var walked := Next(o, l, found, Walk);
    ByStep(o, l, start, found, Walk, walked);
    t := Written(o, l, start, walked);
    forall k | k !in Elements(s.sweep.seen) ensures Settled(t, k) <==> Settled(s, k) {
      assert k !in s.sweep.seen;
    }
  }

  lemma {:induction false} Cleared(o: Order, l: Limits, start: State, s: State, keys: set<Key>) returns (t: State)
    requires Run(Steps(o, l), start, s)
    ensures Run(Steps(o, l), start, t) && t == s.(objects := s.objects - keys, lost := t.lost)
    decreases keys
  {
    if keys == {} {
      t := s;
      assert s.objects - keys == s.objects;
    } else {
      var k :| k in keys;
      var u := Cleared(o, l, start, s, keys - {k});
      t := Next(o, l, u, Delete(k));
      ByStep(o, l, start, u, Delete(k), t);
      assert s.objects - (keys - {k}) - {k} == s.objects - keys;
    }
  }

  lemma {:induction false} UncompactedSnoc(o: Order, keys: seq<Key>, j: Key)
    requires !o.compacted(j)
    ensures Uncompacted(o, keys + [j]) == Uncompacted(o, keys) + [j]
  {
    var more := keys + [j];
    if keys == [] {
      assert more == [j] && more[1..] == [];
    } else {
      UncompactedSnoc(o, keys[1..], j);
      assert more[0] == keys[0] && more[1..] == keys[1..] + [j];
      var first := if o.compacted(keys[0]) then [] else [keys[0]];
      assert first + (Uncompacted(o, keys[1..]) + [j]) == (first + Uncompacted(o, keys[1..])) + [j];
    }
  }

  /** The one key left is the last page. */
  lemma ListedLast(o: TotalOrder, l: Limits, start: State, s: State, j: Key) returns (t: State)
    requires Run(Steps(o, l), start, s) && s.sweep.Listing? && s.sweep.more && |s.sweep.seen| < l.max
    requires j in s.objects && o.less(Last(s.sweep.seen, s.Cursor()), j)
    requires forall k :: k in s.objects && o.less(Last(s.sweep.seen, s.Cursor()), k) ==> k == j
    ensures Run(Steps(o, l), start, t) && t == s.(sweep := Listing(s.sweep.seen + [j], false))
  {
    assert Last([j], Last(s.sweep.seen, s.Cursor())) == j;
    t := Next(o, l, s, Page([j], false));
    ByStep(o, l, start, s, Page([j], false), t);
  }

  /** A listing that asks for no more can move the watermark to its last original. */
  lemma Completed(o: TotalOrder, l: Limits, start: State, s: State) returns (t: State)
    requires Run(Steps(o, l), start, s) && s.sweep.Listing? && !s.sweep.more && Claimed(o, l, s) != s.Cursor()
    ensures Run(Steps(o, l), start, t) && t.Cursor() == Claimed(o, l, s) && t.objects == s.objects
    ensures Leaves(s, t, Elements(s.sweep.seen))
  {
    var keys := Uncompacted(o, s.sweep.seen);
    var looking := Next(o, l, s, EndListing);
    ByStep(o, l, start, s, EndListing, looking);
    AllFound(s.counts, keys, {} + Rest(keys, 0), l.threshold, s.Cursor());
    t := Finished(o, l, start, looking);
    forall k | k !in Elements(s.sweep.seen) ensures Settled(t, k) <==> Settled(s, k) {
      assert k !in Elements(keys);
    }
  }

  /** A listing that asks for another page: everything behind it is deleted, and one
      greater original lands and is listed. */
  lemma Topped(o: TotalOrder, l: Limits, start: State, s: State, bound: Key) returns (t: State, j: Key)
    requires Unbounded(o) && Run(Steps(o, l), start, s) && s.sweep.Listing? && s.sweep.more
    requires |s.sweep.seen| < l.max
    ensures Run(Steps(o, l), start, t) && t.sweep == Listing(s.sweep.seen + [j], false)
    ensures !o.compacted(j) && o.less(bound, j) && o.less(Last(s.sweep.seen, s.Cursor()), j)
    ensures t.marks == s.marks && t.confirmed == s.confirmed && t.quarantined == s.quarantined
    ensures forall k :: k in s.objects && o.AtMost(k, Last(s.sweep.seen, s.Cursor())) ==> k in t.objects
  {
    var from := Last(s.sweep.seen, s.Cursor());
    var behind := set k | k in s.objects && o.less(from, k);
    var cleared := Cleared(o, l, start, s, behind);
    var known := s.landed + {from, bound};
    assert HasTop(o, known);
    j :| Tops(o, known, j);
    assert from in known && bound in known && j !in s.landed;
    var landed := Landed(cleared, j);
    ByStep(o, l, start, cleared, Land(j), landed);
    t := ListedLast(o, l, start, landed, j);
  }

  /** That original is found, and the watermark moves to it. */
  lemma Overtaken(o: TotalOrder, l: Limits, start: State, s: State, bound: Key) returns (t: State, j: Key)
    requires Unbounded(o) && Run(Steps(o, l), start, s) && s.sweep.Listing? && s.sweep.more
    requires Above(o, s.Cursor(), s.sweep.seen) && |s.sweep.seen| < l.max
    ensures Run(Steps(o, l), start, t) && t.Cursor() == j && o.less(bound, j)
    ensures forall k :: k in s.objects && o.AtMost(k, Last(s.sweep.seen, s.Cursor())) ==> k in t.objects
    ensures Leaves(s, t, Elements(s.sweep.seen) + {j})
  {
    var seen := s.sweep.seen;
    var listed;
    listed, j := Topped(o, l, start, s, bound);
    UncompactedSnoc(o, seen, j);
    assert seen != [] ==> seen[|seen| - 1] in seen;
    t := Completed(o, l, start, listed);
    forall k | k !in Elements(seen) + {j} ensures Settled(t, k) <==> Settled(s, k) {
      assert k !in Elements(seen + [j]);
    }
  }

  // ------------------------------------------------------------- exact conditions

  /** There is a run in which an original that is still there is passed over. */
  ghost predicate CanForget(o: Order, l: Limits, s: State, k: Key) {
    exists t :: Run(Steps(o, l), s, t) && Forgotten(o, t, k) && k in t.objects
  }

  /** An original that lands now can be forgotten, in some run, exactly when it lands
      at or below what the sweep in flight has claimed. */
  lemma LandingIsForgottenIff(o: TotalOrder, l: Limits, s: State, k: Key)
    requires Inv(o, l, s) && Unbounded(o) && !o.compacted(k) && k !in s.landed
    ensures CanForget(o, l, Landed(s, k), k) <==> o.AtMost(k, Claimed(o, l, s))
  {
    if o.AtMost(k, Claimed(o, l, s)) {
      LandedBehind(o, l, s, k);
    } else {
      LandedAhead(o, l, s, k);
    }
  }

  lemma LandedAhead(o: TotalOrder, l: Limits, s: State, k: Key)
    requires Inv(o, l, s) && !o.compacted(k) && k !in s.landed && o.less(Claimed(o, l, s), k)
    ensures !CanForget(o, l, Landed(s, k), k)
  {
    LandKeepsInv(o, l, s, k);
    forall t | Run(Steps(o, l), Landed(s, k), t) ensures !(Forgotten(o, t, k) && k in t.objects) {
      LandedIsKept(o, l, Landed(s, k), k, t);
    }
  }

  /** Whatever has landed and is there is not forgotten. */
  lemma LandedIsKept(o: TotalOrder, l: Limits, s: State, k: Key, t: State)
    requires Inv(o, l, s) && !o.compacted(k) && Run(Steps(o, l), s, t)
    ensures !(Forgotten(o, t, k) && k in t.objects)
  {
    RunKeepsAll(o, l, s, t);
  }

  lemma LandedBehind(o: TotalOrder, l: Limits, s: State, k: Key)
    requires Inv(o, l, s) && Unbounded(o) && !o.compacted(k) && k !in s.landed && o.AtMost(k, Claimed(o, l, s))
    ensures CanForget(o, l, Landed(s, k), k)
  {
    var start := Landed(s, k);
    Nothing(Steps(o, l), start);
    if o.AtMost(k, s.Cursor()) {
      assert Forgotten(o, start, k);
    } else {
      LandedBetween(o, l, s, k, start);
    }
  }

  lemma LandedBetween(o: TotalOrder, l: Limits, s: State, k: Key, start: State)
    requires Inv(o, l, s) && Unbounded(o) && !o.compacted(k) && k !in s.landed && o.AtMost(k, Claimed(o, l, s))
    requires !o.AtMost(k, s.Cursor()) && start == Landed(s, k)
    ensures CanForget(o, l, start, k)
  {
    Nothing(Steps(o, l), start);
    match s.sweep
    case Idle =>
    case Writing(mark) => var t := Written(o, l, start, start);
    case Looking(seen, done, existing) =>
      assert k !in Elements(seen);
      var t := Finished(o, l, start, start);
    case Listing(seen, more) =>
      if more {
        LandedInListing(o, l, s, k, start);
      } else {
        assert k !in Elements(seen);
        var t := Completed(o, l, start, start);
      }
  }

  lemma LandedInListing(o: TotalOrder, l: Limits, s: State, k: Key, start: State)
    requires Inv(o, l, s) && Unbounded(o) && !o.compacted(k) && k !in s.landed
    requires s.sweep.Listing? && s.sweep.more && o.AtMost(k, Last(s.sweep.seen, s.Cursor()))
    requires start == Landed(s, k)
    ensures CanForget(o, l, start, k)
  {
    Nothing(Steps(o, l), start);
    var t, j := Overtaken(o, l, start, start, k);
    assert k !in Elements(s.sweep.seen) + {j};
  }

  /** An original that is gone from the bucket can be forgotten, in some run, exactly
      when it was deleted before it was found or given up on, and has not been since.
      So none is forgotten in any run if no deletion comes before that. */
  lemma DeletedIsForgottenIff(o: TotalOrder, l: Limits, s: State, k: Key)
    requires Inv(o, l, s) && Unbounded(o) && l.max > 0 && k in s.landed && k !in s.objects
    ensures (exists t :: Run(Steps(o, l), s, t) && Forgotten(o, t, k)) <==> k in s.lost && !Settled(s, k)
  {
    if Settled(s, k) {
      forall t | Run(Steps(o, l), s, t) ensures !Forgotten(o, t, k) {
        RunKeepsAll(o, l, s, t);
      }
    } else {
      var idle := s.(sweep := Idle);
      Nothing(Steps(o, l), s);
      ByStep(o, l, s, s, Fail, idle);
      var listing := idle.(sweep := Listing([], true));
      ByStep(o, l, s, idle, Begin, listing);
      var t, j := Overtaken(o, l, s, listing, k);
      assert k !in Elements([]) + {j};
      assert Forgotten(o, t, k);
    }
  }

  /** The keys of the archive have no greatest one. */
  lemma {:induction false} GreaterKey(keys: set<Key>) returns (j: Key)
    ensures !IsCompacted(j) && forall k :: k in keys ==> Less(k, j)
    decreases keys
  {
    if keys == {} {
      j := "/";
      FolderIsGreater([]);
    } else {
      var k :| k in keys;
      var i := GreaterKey(keys - {k});
      LessIsTotal(i, k);
      j := (if Less(i, k) then k else i) + "/";
      FolderIsGreater(if Less(i, k) then k else i);
      forall x | x in keys ensures Less(x, j) {
        if x != k {
          assert x in keys - {k};
          if Less(i, k) { LessIsTransitive(x, i, k); LessIsTransitive(x, k, j); } else { LessIsTransitive(x, i, j); }
        } else if !Less(i, k) && i != k {
          LessIsTransitive(k, i, j);
        }
      }
    }
  }

  lemma {:induction false} FolderIsGreater(key: Key)
    ensures Less(key, key + "/") && !IsCompacted(key + "/")
  {
    NameStartIsLast(key + "/", |key| + 1);
    PrefixIsLess(key, "/");
  }

  lemma {:induction false} PrefixIsLess(key: Key, more: string)
    requires more != []
    ensures Less(key, key + more)
  {
    var longer := key + more;
    if key != [] {
      PrefixIsLess(key[1..], more);
      assert longer[0] == key[0] && longer[1..] == key[1..] + more;
    }
  }

  lemma ArchiveIsUnbounded()
    ensures Unbounded(ArchiveOrder())
  {
    forall keys: set<Key> ensures HasTop(ArchiveOrder(), keys) {
      var j := GreaterKey(keys);
      assert Tops(ArchiveOrder(), keys, j);
    }
  }
}
