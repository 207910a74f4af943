/**
  The in-process notify queue and its retrying consumer
  (services/api/src/archive/notify-queue.ts, notify-consumer.ts).
*/
module Notify {
  import opened Base
  import opened Keys
  import opened Runs

  datatype Item = Item(tenant: string, ref: Key)

  function Refs(items: seq<Item>): set<Key> { set x | x in items :: x.ref }

  /** The queue after one more item: unchanged when the reference is already
      pending or the queue is full. */
  function Enqueued(pending: seq<Item>, item: Item, maxSize: nat): seq<Item> {
    if item.ref in Refs(pending) || |pending| >= maxSize then pending else pending + [item]
  }

  ghost predicate OncePerRef(items: seq<Item>) {
    items == [] || (items[0].ref !in Refs(items[1..]) && OncePerRef(items[1..]))
  }

  lemma {:induction false} OncePerRefSnoc(items: seq<Item>, item: Item)
    requires OncePerRef(items) && item.ref !in Refs(items)
    ensures OncePerRef(items + [item])
  {
    if items != [] {
      assert (items + [item])[1..] == items[1..] + [item];
      OncePerRefSnoc(items[1..], item);
    }
  }

  lemma RefsTail(items: seq<Item>)
    requires items != [] && OncePerRef(items)
    ensures Refs(items[1..]) == Refs(items) - {items[0].ref} && OncePerRef(items[1..])
  {
    assert items == [items[0]] + items[1..];
  }

  lemma {:induction false} OncePerRefSplit(taken: seq<Item>, pending: seq<Item>)
    requires OncePerRef(taken + pending)
    ensures forall x :: x in taken ==> x.ref !in Refs(pending)
  {
    if taken != [] {
      assert (taken + pending)[1..] == taken[1..] + pending;
      OncePerRefSplit(taken[1..], pending);
    }
  }

  class NotifyQueue {
    const maxSize: nat
    var pending: seq<Item>
    var pendingRefs: set<Key>
    var droppedWhenFull: nat

    /** Bounded, and `pendingRefs` names exactly what is pending, once. */
    ghost predicate Valid()
      reads this
    {
      |pending| <= maxSize && pendingRefs == Refs(pending) && OncePerRef(pending)
    }

    constructor (maxSize: nat)
      ensures Valid() && this.maxSize == maxSize && pending == [] && droppedWhenFull == 0
    {
      this.maxSize, pending, pendingRefs, droppedWhenFull := maxSize, [], {}, 0;
    }

    method Enqueue(item: Item) returns (added: bool)
      requires Valid()
      modifies this
      ensures Valid() && pending == Enqueued(old(pending), item, maxSize)
      ensures added <==> (forall x :: x in old(pending) ==> x.ref != item.ref) && |old(pending)| < maxSize
      ensures pending == old(pending) + if added then [item] else []
      ensures droppedWhenFull == old(droppedWhenFull)
                + if item.ref !in Refs(old(pending)) && |old(pending)| == maxSize then 1 else 0
    {
      if item.ref in pendingRefs {
        return false;
      }
      if |pending| >= maxSize {
        droppedWhenFull := droppedWhenFull + 1;
        return false;
      }
      OncePerRefSnoc(pending, item);
      pending := pending + [item];
      pendingRefs := pendingRefs + {item.ref};
      added := true;
    }

    /** Up to `n` items, oldest first; their references may be enqueued again. */
    method Dequeue(n: int) returns (taken: seq<Item>)
      requires Valid()
      modifies this`pending, this`pendingRefs
      ensures Valid() && taken + pending == old(pending)
      ensures |taken| == if n <= 0 then 0 else if n <= |old(pending)| then n else |old(pending)|
      ensures forall x :: x in taken ==> x.ref !in Refs(pending)
    {
      var k := if n <= 0 then 0 else if n <= |pending| then n else |pending|;
      taken := pending[..k];
      ghost var all, rest := pending, pending;
      pending := pending[k..];
      assert all == taken + pending;
      OncePerRefSplit(taken, pending);
      var i := 0;
      while i < |taken|
        invariant 0 <= i <= |taken| && pending == all[k..] && rest == all[i..]
        invariant OncePerRef(rest) && pendingRefs == Refs(rest)
      {
        RefsTail(rest);
        pendingRefs := pendingRefs - {taken[i].ref};
        rest := rest[1..];
        i := i + 1;
      }
    }
  }

  // ----------------------------------------------------------------- the consumer

  function Attempts(attempts: map<Key, nat>, ref: Key): nat { if ref in attempts then attempts[ref] else 0 }

  /** What failing once more, or succeeding, leaves in the attempt counts. */
  function AttemptsAfter(attempts: map<Key, nat>, ref: Key, failed: bool, maxAttempts: nat): map<Key, nat> {
    if failed && Attempts(attempts, ref) + 1 < maxAttempts then attempts[ref := Attempts(attempts, ref) + 1]
    else attempts - {ref}
  }

  class NotifyConsumer {
    const queue: NotifyQueue
    const maxAttempts: nat
    var attempts: map<Key, nat>

    constructor (queue: NotifyQueue, maxAttempts: nat)
      ensures this.queue == queue && this.maxAttempts == maxAttempts && attempts == map[]
    {
      this.queue, this.maxAttempts, attempts := queue, maxAttempts, map[];
    }

    /** One tick: up to `batchSize` items, oldest first; none while the circuit is open. */
    method DrainOnce(batchSize: int, circuitOpen: bool, failed: Item -> bool)
      returns (processed: nat, ghost taken: seq<Item>)
      requires queue.Valid()
      modifies this`attempts, queue
      ensures queue.Valid()
      ensures |taken| == if circuitOpen || batchSize <= 0 then 0
                         else if batchSize <= |old(queue.pending)| then batchSize else |old(queue.pending)|
      ensures taken <= old(queue.pending) && processed == Successes(taken, failed)
      ensures (attempts, queue.pending)
           == AfterItems(old(attempts), old(queue.pending)[|taken|..], taken, failed, maxAttempts, queue.maxSize)
    {
      processed, taken := 0, [];
      if circuitOpen {
        return;
      }
      var items := queue.Dequeue(batchSize);
      ghost var start, rest := attempts, queue.pending;
      for i := 0 to |items|
        invariant queue.Valid() && taken == items[..i] && processed == Successes(taken, failed)
        invariant (attempts, queue.pending) == AfterItems(start, rest, taken, failed, maxAttempts, queue.maxSize)
      {
        assert (taken + [items[i]])[..|taken|] == taken;
        taken := taken + [items[i]];
        var ok := ProcessItem(items[i], failed(items[i]));
        processed := if ok then processed + 1 else processed;
      }
      assert taken == items;
    }

    /** One dequeued item; `failed` when fetching or ingesting it threw. */
    method ProcessItem(item: Item, failed: bool) returns (ok: bool)
      requires queue.Valid()
      modifies this`attempts, queue
      ensures queue.Valid() && ok == !failed
      ensures attempts == AttemptsAfter(old(attempts), item.ref, failed, maxAttempts)
      ensures var tries := Attempts(old(attempts), item.ref) + 1;
              Attempts(attempts, item.ref) == if failed && tries < maxAttempts then tries else 0
      ensures forall k :: k != item.ref ==> Attempts(attempts, k) == Attempts(old(attempts), k)
      ensures queue.pending == if failed && Attempts(old(attempts), item.ref) + 1 < maxAttempts
                               then Enqueued(old(queue.pending), item, queue.maxSize) else old(queue.pending)
    {
      ok := !failed;
      if ok {
        attempts := attempts - {item.ref};
      } else {
        var attempt := Attempts(attempts, item.ref) + 1;
        if attempt < maxAttempts {
          attempts := attempts[item.ref := attempt];
          var _ := queue.Enqueue(item);
        } else {
          attempts := attempts - {item.ref};
        }
      }
    }
  }

  /** The attempt counts and the queue after some items have been processed. */
  function AfterItems(attempts: map<Key, nat>, pending: seq<Item>, items: seq<Item>, failed: Item -> bool,
        maxAttempts: nat, maxSize: nat):
    (map<Key, nat>, seq<Item>)
    decreases |items|
  {
    if items == [] then (attempts, pending)
    else
      var (a, p), item := AfterItems(attempts, pending, items[..|items| - 1], failed, maxAttempts, maxSize),
          items[|items| - 1];
      (AttemptsAfter(a, item.ref, failed(item), maxAttempts),
       if failed(item) && Attempts(a, item.ref) + 1 < maxAttempts then Enqueued(p, item, maxSize) else p)
  }

  function Successes(items: seq<Item>, failed: Item -> bool): nat {
    if items == [] then 0
    else Successes(items[..|items| - 1], failed) + if failed(items[|items| - 1]) then 0 else 1
  }

  function Succeeding(items: seq<Item>, failed: Item -> bool): set<nat> {
    set i: nat | i < |items| && !failed(items[i])
  }

  lemma OneMore(most: seq<Item>, item: Item, items: seq<Item>, failed: Item -> bool)
    requires items == most + [item]
    ensures |Succeeding(items, failed)| == |Succeeding(most, failed)| + if failed(item) then 0 else 1
  {
    assert Succeeding(items, failed) == Succeeding(most, failed) + if failed(item) then {} else {|most|};
  }

  /** The successes are the items that did not fail. */
  lemma {:induction false} SuccessesAre(items: seq<Item>, failed: Item -> bool)
    ensures Successes(items, failed) == |Succeeding(items, failed)|
  {
    if items != [] {
      var n := |items| - 1;
      SuccessesAre(items[..n], failed);
      OneMore(items[..n], items[n], items, failed);
    }
  }

  // ------------------------------------------------------------- over many ticks

  /** The queue, what the tick in progress has taken and not yet processed, and the
      attempt counts; and of the past how often a reference was newly enqueued from
      outside, and how often it was tried. */
  datatype World = World(pending: seq<Item>, taken: seq<Item>, attempts: map<Key, nat>, notified: multiset<Key>,
      tried: multiset<Key>)

  datatype Settings = Settings(maxAttempts: nat, maxSize: nat)

  datatype Action =
    | Notify(item: Item)       // by the endpoint or by the sweep
    | Tick(n: nat)             // a tick takes n items; ticks do not overlap
    | Process(failed: bool)    // the next item of the tick
    | Restart                  // the queue and the counts are gone

  predicate CanHappen(w: World, a: Action) {
    match a
    case Tick(n) => w.taken == [] && n <= |w.pending|
    case Process(_) => w.taken != []
    case _ => true
  }

  /** `Enqueue`, `Dequeue` and `ProcessItem` as their contracts have them. */
  function Happens(c: Settings, w: World, a: Action): World
    requires CanHappen(w, a)
  {
    match a
    case Notify(item) =>
      var more := Enqueued(w.pending, item, c.maxSize);
      w.(pending := more, notified := w.notified + if more != w.pending then multiset{item.ref} else multiset{})
    case Tick(n) => w.(taken := w.pending[..n], pending := w.pending[n..])
    case Process(failed) => Processed(c, w, failed)
    case Restart => w.(pending := [], taken := [], attempts := map[])
  }

  function Processed(c: Settings, w: World, failed: bool): World
    requires w.taken != []
  {
    var item := w.taken[0];
    var again := failed && Attempts(w.attempts, item.ref) + 1 < c.maxAttempts;
    w.(taken := w.taken[1..], tried := w.tried + multiset{item.ref},
       attempts := AttemptsAfter(w.attempts, item.ref, failed, c.maxAttempts),
       pending := if again then Enqueued(w.pending, item, c.maxSize) else w.pending)
  }

  ghost predicate Moves(c: Settings, w: World, x: World) { exists a :: CanHappen(w, a) && x == Happens(c, w, a) }

  ghost function Steps(c: Settings): (World, World) -> bool { (w, x) => Moves(c, w, x) }

  function Budget(c: Settings): nat { if c.maxAttempts == 0 then 1 else c.maxAttempts }

  /** The tries that what is pending and what is taken may still need. */
  function Due(c: Settings, w: World, ref: Key): int {
    var left := Budget(c) - Attempts(w.attempts, ref);
    (if ref in Refs(w.taken) then left else 0)
    + (if ref !in Refs(w.pending) then 0 else if ref in Refs(w.taken) then Budget(c) else left)
  }

  /** The tries that so many enqueueings allow. */
  function Allowed(c: Settings, notified: nat): nat {
    if notified == 0 then 0 else Allowed(c, notified - 1) + Budget(c)
  }

  lemma {:induction false} AllowedIs(c: Settings, notified: nat)
    ensures Allowed(c, notified) == Budget(c) * notified
  {
    if notified > 0 {
      AllowedIs(c, notified - 1);
    }
  }

  /** What was tried and is due is paid for by what was enqueued. */
  ghost predicate Paid(c: Settings, w: World, ref: Key) {
    && OncePerRef(w.pending) && OncePerRef(w.taken) && Attempts(w.attempts, ref) < Budget(c)
    && w.tried[ref] + Due(c, w, ref) <= Allowed(c, w.notified[ref])
  }

  lemma EnqueuedRefs(pending: seq<Item>, item: Item, maxSize: nat)
    requires OncePerRef(pending)
    ensures var more := Enqueued(pending, item, maxSize);
            OncePerRef(more) && Refs(more) == Refs(pending) + if more != pending then {item.ref} else {}
    ensures Enqueued(pending, item, maxSize) != pending ==> item.ref !in Refs(pending)
  {
    if item.ref !in Refs(pending) {
      OncePerRefSnoc(pending, item);
    }
  }

  lemma NotifyKeepsPaid(c: Settings, w: World, item: Item, ref: Key)
    requires Paid(c, w, ref)
    ensures Paid(c, Happens(c, w, Notify(item)), ref)
  {
    EnqueuedRefs(w.pending, item, c.maxSize);
  }

  lemma TickKeepsPaid(c: Settings, w: World, n: nat, ref: Key)
    requires Paid(c, w, ref) && CanHappen(w, Tick(n))
    ensures Paid(c, Happens(c, w, Tick(n)), ref)
  {
    var taken, rest := w.pending[..n], w.pending[n..];
    assert w.pending == taken + rest;
    OncePerRefSplit(taken, rest);
    OncePerRefParts(taken, rest);
    assert Refs(w.pending) == Refs(taken) + Refs(rest);
  }

  lemma {:induction false} OncePerRefParts(a: seq<Item>, b: seq<Item>)
    requires OncePerRef(a + b)
    ensures OncePerRef(a) && OncePerRef(b)
  {
    if a == [] {
      assert a + b == b;
    } else {
      assert (a + b)[1..] == a[1..] + b;
      OncePerRefParts(a[1..], b);
    }
  }

  lemma ProcessKeepsPaid(c: Settings, w: World, failed: bool, ref: Key)
    requires Paid(c, w, ref) && w.taken != []
    ensures Paid(c, Processed(c, w, failed), ref)
  {
    RefsTail(w.taken);
    EnqueuedRefs(w.pending, w.taken[0], c.maxSize);
  }

  lemma MoveKeepsPaid(c: Settings, w: World, x: World, ref: Key)
    requires Paid(c, w, ref) && Moves(c, w, x)
    ensures Paid(c, x, ref)
  {
    var a :| CanHappen(w, a) && x == Happens(c, w, a);
    match a
    case Notify(item) => NotifyKeepsPaid(c, w, item, ref);
    case Tick(n) => TickKeepsPaid(c, w, n, ref);
    case Process(failed) => ProcessKeepsPaid(c, w, failed, ref);
    case Restart =>
  }

  /** Retries are bounded: over every run of the queue and the consumer, with ticks
      interleaved with notifications, overlapping copies, full queues and restarts, a
      reference is tried at most `maxAttempts` times (once, if that is zero) for each
      time it was newly enqueued. */
  lemma TriesAreBounded(c: Settings, w: World, ref: Key)
    requires Run(Steps(c), World([], [], map[], multiset{}, multiset{}), w)
    ensures w.tried[ref] <= Budget(c) * w.notified[ref]
  {
    var inv := x => Paid(c, x, ref);
    forall a, b {:trigger Steps(c)(a, b)} | inv(a) && Steps(c)(a, b) ensures inv(b) {
      MoveKeepsPaid(c, a, b, ref);
    }
    RunKeeps(Steps(c), inv, World([], [], map[], multiset{}, multiset{}), w);
    DueIsPositive(c, w, ref);
    AllowedIs(c, w.notified[ref]);
  }

  lemma DueIsPositive(c: Settings, w: World, ref: Key)
    requires Attempts(w.attempts, ref) < Budget(c)
    ensures Due(c, w, ref) >= 0
  {
  }

  lemma ProcessMoves(c: Settings, w: World, failed: bool)
    requires w.taken != []
    ensures Moves(c, w, Processed(c, w, failed))
  {
    assert CanHappen(w, Process(failed)) && Processed(c, w, failed) == Happens(c, w, Process(failed));
  }

  lemma TickMoves(c: Settings, w: World, taken: seq<Item>, rest: seq<Item>)
    requires w.taken == [] && w.pending == taken + rest
    ensures Moves(c, w, w.(taken := taken, pending := rest))
  {
    assert w.pending[..|taken|] == taken && w.pending[|taken|..] == rest;
    assert CanHappen(w, Tick(|taken|)) && w.(taken := taken, pending := rest) == Happens(c, w, Tick(|taken|));
  }

  lemma AfterOneMore(c: Settings, attempts: map<Key, nat>, rest: seq<Item>, done: seq<Item>, item: Item,
        ahead: seq<Item>, failed: Item -> bool, w: World)
    requires (w.attempts, w.pending) == AfterItems(attempts, rest, done, failed, c.maxAttempts, c.maxSize)
    requires w.taken == [item] + ahead
    ensures var x := Processed(c, w, failed(item));
            && x.taken == ahead
            && (x.attempts, x.pending) == AfterItems(attempts, rest, done + [item], failed, c.maxAttempts, c.maxSize)
  {
    assert (done + [item])[..|done|] == done;
  }

  /** A tick that nothing comes between is a run, and its outcome is the contract of
      `DrainOnce`: `done` are the items it has processed, `ahead` those it has yet to. */
  lemma {:induction false} DrainIsRun(c: Settings, w: World, done: seq<Item>, ahead: seq<Item>, rest: seq<Item>,
        failed: Item -> bool)
    returns (x: World)
    requires w.taken == [] && w.pending == (done + ahead) + rest
    ensures Run(Steps(c), w, x) && x.taken == ahead
    ensures (x.attempts, x.pending) == AfterItems(w.attempts, rest, done, failed, c.maxAttempts, c.maxSize)
    decreases |done|
  {
    if done == [] {
      assert done + ahead == ahead;
      TickMoves(c, w, ahead, rest);
      x := w.(taken := ahead, pending := rest);
      Nothing(Steps(c), w);
      Then(Steps(c), w, w, x);
    } else {
      var most, item := done[..|done| - 1], done[|done| - 1];
      assert done == most + [item] && done + ahead == most + ([item] + ahead);
      var y := DrainIsRun(c, w, most, [item] + ahead, rest, failed);
      AfterOneMore(c, w.attempts, rest, most, item, ahead, failed, y);
      x := Processed(c, y, failed(item));
      ProcessMoves(c, y, failed(item));
      Then(Steps(c), w, y, x);
    }
  }

  /** The bound is reached: with one reference that keeps failing. */
  lemma BudgetIsSpent(c: Settings, item: Item) returns (w: World)
    requires c.maxSize > 0
    ensures Run(Steps(c), World([], [], map[], multiset{}, multiset{}), w)
    ensures w.tried[item.ref] == Budget(c) && w.notified[item.ref] == 1
  {
    var nothing := World([], [], map[], multiset{}, multiset{});
    w := FailedTimes(c, item, Budget(c) - 1);
    w := FailOnce(c, item, nothing, w);
  }

  /** After `n` failed tries the reference is pending again, with `n` attempts. */
  lemma {:induction false} FailedTimes(c: Settings, item: Item, n: nat) returns (w: World)
    requires c.maxSize > 0 && n < Budget(c)
    ensures Run(Steps(c), World([], [], map[], multiset{}, multiset{}), w)
    ensures w.pending == [item] && w.taken == [] && Attempts(w.attempts, item.ref) == n
    ensures w.tried[item.ref] == n && w.notified[item.ref] == 1
  {
    var nothing := World([], [], map[], multiset{}, multiset{});
    if n == 0 {
      w := Happens(c, nothing, Notify(item));
      Nothing(Steps(c), nothing);
      assert Moves(c, nothing, w);
      Then(Steps(c), nothing, nothing, w);
    } else {
      var before := FailedTimes(c, item, n - 1);
      w := FailOnce(c, item, nothing, before);
    }
  }

  lemma FailOnce(c: Settings, item: Item, start: World, w: World) returns (x: World)
    requires Run(Steps(c), start, w) && w.pending == [item] && w.taken == [] && c.maxSize > 0
    ensures Run(Steps(c), start, x) && x == Processed(c, w.(pending := [], taken := [item]), true)
    ensures x.taken == [] && x.tried[item.ref] == w.tried[item.ref] + 1 && x.notified == w.notified
    ensures Attempts(w.attempts, item.ref) + 1 < c.maxAttempts
        ==> x.pending == [item] && Attempts(x.attempts, item.ref) == Attempts(w.attempts, item.ref) + 1
  {
    var y := Happens(c, w, Tick(1));
    assert Moves(c, w, y);
    Then(Steps(c), start, w, y);
    assert y == w.(pending := [], taken := [item]);
    x := Happens(c, y, Process(true));
    assert Moves(c, y, x);
    Then(Steps(c), start, y, x);
  }
}
