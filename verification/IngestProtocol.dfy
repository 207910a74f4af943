/**
  The ingest service under retries (services/api/src/pipeline/ingest.ts,
  idempotency.ts) as a step relation: any number of calls run at once, inserts fail
  with some of their rows written, cached results expire, and the process crashes
  between any two steps. What callers send is a parameter: any set of batches, each
  with its own options and its own explicit key.
*/
module IngestProtocol {
  import opened Base
  import opened Events
  import opened Runs

  /** A batch key: the digest of some sorted ids (taken to be injective), or any other
      text that a caller has chosen. */
  datatype Key = Chosen(text: string) | Digest(ids: multiset<Id>)

  /** A batch as a caller sent it, with the key of its header if it has one. */
  datatype Batch = Batch(tenant: string, events: seq<Event>, header: Option<Key>, options: Options)

  /** The key that the server takes: that of the header, which does not count if it is
      empty, else the digest of the ids of the events that parse; none without ids. */
  function BatchKey(b: Batch): Option<Key> {
    if b.header.Some? then (if b.header.value == Chosen("") then None else b.header)
    else
      var ids := Ids(Parsed(b.options, b.events));
      if ids == [] then None else Some(Digest(multiset(ids)))
  }

  /** A header that is not empty is the key. Without a header there is a key if and only
      if some event that parses has an id, and it tells how often each id occurs. */
  lemma BatchKeyIs(b: Batch)
    ensures b.header.Some? ==> BatchKey(b) == if b.header.value == Chosen("") then None else b.header
    ensures b.header.None?
            ==> (BatchKey(b).Some? <==> exists e :: e in b.events && Parses(b.options, e) && e.id.Some?)
    ensures b.header.None? && BatchKey(b).Some?
            ==> BatchKey(b) == Some(Digest(multiset(Ids(Parsed(b.options, b.events)))))
  {
    var parsed := Parsed(b.options, b.events);
    var ids := Ids(parsed);
    ParsedAre(b.options, b.events);
    if ids != [] {
      IdsAre(parsed, ids[0]);
    }
    forall e | e in b.events && Parses(b.options, e) && e.id.Some? ensures ids != [] {
      IdsAre(parsed, e.id.value);
    }
  }

  /** The event is in the batch and parses under its options. */
  predicate Names(b: Batch, e: Event) { e in b.events && Parses(b.options, e) }

  /** A time that cannot be printed throws, before the cache and the gate are asked. */
  predicate Throws(b: Batch) { exists e :: e in b.events && Parses(b.options, e) && e.stamp.Unprintable? }

  function Level(b: Batch, e: Event): Severity { SeverityOf(LevelOf(b.options, e)) }

  /** A gate is the least severity that it lets pass. */
  predicate Kept(b: Batch, e: Event, gate: Severity) { Names(b, e) && Level(b, e) >= gate }

  function Least(m: Severity, n: Severity): Severity { if m < n then m else n }

  predicate KeepsSome(b: Batch, gate: Severity) { exists e :: e in b.events && Kept(b, e, gate) }

  /** A request in progress: once its rows are inserted, the gate that it met. */
  datatype Call = Call(batch: Batch, gate: Option<Severity>)

  datatype Server = Server(
    calls: map<nat, Call>,
    cache: set<(string, Key)>,
    rows: set<Row>,
    acked: set<Batch>,               // answered with a 2xx
    refused: set<Batch>,             // answered with an unrecoverable 4xx
    strictest: Severity)             // no gate has been stricter

  datatype Step =
    | Arrive(call: nat, batch: Batch)
    | Replay(call: nat)                                 // a cached result is returned
    | Insert(call: nat, now: Time, gate: Severity, generated: seq<nat>)
    | Fail(call: nat, rows: set<Row>)                   // a 5xx, some rows may be there
    | Record(call: nat)                                 // the result is returned, and cached if there are rows
    | Refuse(call: nat)
    | Forget(key: (string, Key))                        // expiry or eviction
    | Raise(gate: Severity)                             // gates may be this strict from now on
    | Crash

  function RowIn(b: Batch, e: Event, now: Time, generated: nat): Row { RowOf(b.tenant, b.options, e, now, generated) }

  /** The rows of a batch, with the ids that were generated for its events. */
  function RowsOf(b: Batch, now: Time, gate: Severity, generated: seq<nat>): set<Row>
    requires |generated| == |b.events|
  {
    set i | 0 <= i < |b.events| && Kept(b, b.events[i], gate) :: RowIn(b, b.events[i], now, generated[i])
  }

  function Used(rows: set<Row>): set<nat> { set r | r in rows && r.key.id.Generated? :: r.key.id.n }

  /** Generated ids are new, and no two are the same. */
  ghost predicate AllNew(v: Server, generated: seq<nat>) {
    && (forall i :: 0 <= i < |generated| ==> generated[i] !in Used(v.rows))
    && forall i, j :: 0 <= i < j < |generated| ==> generated[i] != generated[j]
  }

  /** A row that the batch can make. */
  predicate FromBatch(b: Batch, r: Row) {
    && Names(b, r.event) && !Throws(b)
    && r == RowIn(b, r.event, r.key.time, if r.key.id.Generated? then r.key.id.n else 0)
  }

  ghost predicate Enabled(sent: iset<Batch>, v: Server, step: Step) {
    match step
    case Arrive(i, b) => i !in v.calls && b in sent
    case Replay(i) =>
      && i in v.calls && v.calls[i].gate.None? && !Throws(v.calls[i].batch)
      && var b := v.calls[i].batch; BatchKey(b).Some? && (b.tenant, BatchKey(b).value) in v.cache
    case Insert(i, _, gate, generated) =>
      && i in v.calls && v.calls[i].gate.None? && !Throws(v.calls[i].batch) && gate <= v.strictest
      && |generated| == |v.calls[i].batch.events| && AllNew(v, generated)
    case Fail(i, rows) =>
      && i in v.calls && v.calls[i].gate.None?
      && forall r :: r in rows ==> FromBatch(v.calls[i].batch, r)
                                   && (r.key.id.Generated? ==> r.key.id.n !in Used(v.rows))
    case Record(i) => i in v.calls && v.calls[i].gate.Some?
    case Refuse(i) => i in v.calls && v.calls[i].gate.None?
    case _ => true
  }

  /** What is cached of a call: nothing when no event was kept, or there is no key. */
  function CacheKeys(b: Batch, gate: Severity): set<(string, Key)> {
    if KeepsSome(b, gate) && BatchKey(b).Some? then {(b.tenant, BatchKey(b).value)} else {}
  }

  ghost function Next(sent: iset<Batch>, v: Server, step: Step): Server
    requires Enabled(sent, v, step)
  {
    match step
    case Arrive(i, b) => v.(calls := v.calls[i := Call(b, None)])
    case Replay(i) => v.(calls := v.calls - {i}, acked := v.acked + {v.calls[i].batch})
    case Insert(i, now, gate, generated) =>
      var b := v.calls[i].batch;
      v.(calls := v.calls[i := Call(b, Some(gate))], rows := v.rows + RowsOf(b, now, gate, generated))
    case Fail(i, rows) => v.(calls := v.calls - {i}, rows := v.rows + rows)
    case Record(i) =>
      var b := v.calls[i].batch;
      v.(calls := v.calls - {i}, acked := v.acked + {b}, cache := v.cache + CacheKeys(b, v.calls[i].gate.value))
    case Refuse(i) => v.(calls := v.calls - {i}, refused := v.refused + {v.calls[i].batch})
    case Forget(key) => v.(cache := v.cache - {key})
    case Raise(gate) => v.(strictest := if gate > v.strictest then gate else v.strictest)
    case Crash => v.(calls := map[], cache := {})
  }

  // -------------------------------------------------------------------- invariant

  ghost predicate Has(rows: set<Row>, tenant: string, e: Event) {
    exists r :: r in rows && r.key.tenant == tenant && r.event == e
  }

  /** A batch whose events a gate has met, and those that it kept are stored. */
  ghost predicate Filed(v: Server, b: Batch, gate: Severity) {
    && !Throws(b) && gate <= v.strictest
    && forall e :: e in b.events && Kept(b, e, gate) ==> Has(v.rows, b.tenant, e)
  }

  /** A batch that was recorded under a key. */
  ghost predicate RecordedAs(sent: iset<Batch>, v: Server, c: Batch, gate: Severity, t: string, key: Key) {
    c in sent && c.tenant == t && BatchKey(c) == Some(key) && Filed(v, c, gate) && KeepsSome(c, gate)
  }

  /** What a cached key stands for: some batch that was sent under it and is stored. */
  ghost predicate CachedOk(sent: iset<Batch>, v: Server, t: string, key: Key) {
    exists c, gate :: RecordedAs(sent, v, c, gate, t, key)
  }

  /** What an answer stands for: the batch is stored, or another of its key is. */
  ghost predicate AckedOk(sent: iset<Batch>, v: Server, b: Batch) {
    && b in sent && !Throws(b)
    && ((exists gate :: Filed(v, b, gate))
        || (BatchKey(b).Some? && CachedOk(sent, v, b.tenant, BatchKey(b).value)))
  }

  ghost predicate CallOk(sent: iset<Batch>, v: Server, c: Call) {
    c.batch in sent && (c.gate.Some? ==> Filed(v, c.batch, c.gate.value))
  }

  ghost predicate RowOk(sent: iset<Batch>, r: Row) { exists b :: b in sent && FromBatch(b, r) }

  ghost predicate Inv(sent: iset<Batch>, v: Server) {
    && (forall r :: r in v.rows ==> RowOk(sent, r))
    && (forall i :: i in v.calls ==> CallOk(sent, v, v.calls[i]))
    && (forall x :: x in v.cache ==> CachedOk(sent, v, x.0, x.1))
    && (forall b :: b in v.acked ==> AckedOk(sent, v, b))
  }

  /** The rows only grow, and gates only get stricter. */
  predicate Onward(v: Server, w: Server) { v.rows <= w.rows && v.strictest <= w.strictest }

  lemma FiledStays(v: Server, w: Server, b: Batch, gate: Severity)
    requires Onward(v, w) && Filed(v, b, gate)
    ensures Filed(w, b, gate)
  {
    forall e | e in b.events && Kept(b, e, gate) ensures Has(w.rows, b.tenant, e) {
      assert Has(v.rows, b.tenant, e);
    }
  }

  lemma CachedStays(sent: iset<Batch>, v: Server, w: Server, t: string, key: Key)
    requires Onward(v, w) && CachedOk(sent, v, t, key)
    ensures CachedOk(sent, w, t, key)
  {
    var c, gate :| RecordedAs(sent, v, c, gate, t, key);
    FiledStays(v, w, c, gate);
    assert RecordedAs(sent, w, c, gate, t, key);
  }

  lemma AckedStays(sent: iset<Batch>, v: Server, w: Server, b: Batch)
    requires Onward(v, w) && AckedOk(sent, v, b)
    ensures AckedOk(sent, w, b)
  {
    if gate :| Filed(v, b, gate) {
      FiledStays(v, w, b, gate);
    } else {
      CachedStays(sent, v, w, b.tenant, BatchKey(b).value);
    }
  }

  lemma CallStays(sent: iset<Batch>, v: Server, w: Server, c: Call)
    requires Onward(v, w) && CallOk(sent, v, c)
    ensures CallOk(sent, w, c)
  {
    if c.gate.Some? {
      FiledStays(v, w, c.batch, c.gate.value);
    }
  }

  lemma OnwardKeepsInv(sent: iset<Batch>, v: Server, w: Server)
    requires Inv(sent, v) && Onward(v, w)
    requires forall r :: r in w.rows ==> r in v.rows || RowOk(sent, r)
    requires forall i :: i in w.calls ==> (i in v.calls && w.calls[i] == v.calls[i]) || CallOk(sent, w, w.calls[i])
    requires forall x :: x in w.cache ==> x in v.cache || CachedOk(sent, w, x.0, x.1)
    requires forall b :: b in w.acked ==> b in v.acked || AckedOk(sent, w, b)
    ensures Inv(sent, w)
  {
    forall i | i in w.calls ensures CallOk(sent, w, w.calls[i]) {
      if i in v.calls && w.calls[i] == v.calls[i] {
        CallStays(sent, v, w, v.calls[i]);
      }
    }
    forall x | x in w.cache ensures CachedOk(sent, w, x.0, x.1) {
      if x in v.cache {
        CachedStays(sent, v, w, x.0, x.1);
      }
    }
    forall b | b in w.acked ensures AckedOk(sent, w, b) {
      if b in v.acked {
        AckedStays(sent, v, w, b);
      }
    }
  }

  /** A replayed batch is not lost: a batch that was sent under its key is stored. */
  lemma ReplayIsRecorded(sent: iset<Batch>, v: Server, i: nat)
    requires Inv(sent, v) && Enabled(sent, v, Replay(i))
    ensures var b := v.calls[i].batch;
            exists c, gate :: RecordedAs(sent, v, c, gate, b.tenant, BatchKey(b).value)
    ensures AckedOk(sent, v, v.calls[i].batch)
  {
    var b := v.calls[i].batch;
    assert CallOk(sent, v, v.calls[i]) && CachedOk(sent, v, b.tenant, BatchKey(b).value);
  }

  lemma InsertFiles(v: Server, w: Server, b: Batch, now: Time, gate: Severity, generated: seq<nat>)
    requires !Throws(b) && gate <= w.strictest && |generated| == |b.events|
    requires w.rows == v.rows + RowsOf(b, now, gate, generated)
    ensures Filed(w, b, gate)
  {
    forall e | e in b.events && Kept(b, e, gate) ensures Has(w.rows, b.tenant, e) {
      var k :| 0 <= k < |b.events| && b.events[k] == e;
      assert RowIn(b, b.events[k], now, generated[k]) in RowsOf(b, now, gate, generated);
    }
  }

  lemma InsertedAreOk(sent: iset<Batch>, b: Batch, now: Time, gate: Severity, generated: seq<nat>)
    requires b in sent && !Throws(b) && |generated| == |b.events|
    ensures forall r :: r in RowsOf(b, now, gate, generated) ==> RowOk(sent, r)
  {
    forall r | r in RowsOf(b, now, gate, generated) ensures RowOk(sent, r) {
      assert FromBatch(b, r);
    }
  }

  lemma InsertKeepsInv(sent: iset<Batch>, v: Server, i: nat, now: Time, gate: Severity, generated: seq<nat>)
    requires Inv(sent, v) && Enabled(sent, v, Insert(i, now, gate, generated))
    ensures Inv(sent, Next(sent, v, Insert(i, now, gate, generated)))
  {
    var w, b := Next(sent, v, Insert(i, now, gate, generated)), v.calls[i].batch;
    assert CallOk(sent, v, v.calls[i]);
    InsertFiles(v, w, b, now, gate, generated);
    InsertedAreOk(sent, b, now, gate, generated);
    OnwardKeepsInv(sent, v, w);
  }

  lemma FailKeepsInv(sent: iset<Batch>, v: Server, i: nat, rows: set<Row>)
    requires Inv(sent, v) && Enabled(sent, v, Fail(i, rows))
    ensures Inv(sent, Next(sent, v, Fail(i, rows)))
  {
    assert CallOk(sent, v, v.calls[i]);
    OnwardKeepsInv(sent, v, Next(sent, v, Fail(i, rows)));
  }

  lemma RecordKeepsInv(sent: iset<Batch>, v: Server, i: nat)
    requires Inv(sent, v) && Enabled(sent, v, Record(i))
    ensures Inv(sent, Next(sent, v, Record(i)))
  {
    var w, b, gate := Next(sent, v, Record(i)), v.calls[i].batch, v.calls[i].gate.value;
    assert CallOk(sent, v, v.calls[i]);
    FiledStays(v, w, b, gate);
    if KeepsSome(b, gate) && BatchKey(b).Some? {
      assert RecordedAs(sent, w, b, gate, b.tenant, BatchKey(b).value);
    }
    OnwardKeepsInv(sent, v, w);
  }

  lemma ReplayKeepsInv(sent: iset<Batch>, v: Server, i: nat)
    requires Inv(sent, v) && Enabled(sent, v, Replay(i))
    ensures Inv(sent, Next(sent, v, Replay(i)))
  {
    var w := Next(sent, v, Replay(i));
    ReplayIsRecorded(sent, v, i);
    AckedStays(sent, v, w, v.calls[i].batch);
    OnwardKeepsInv(sent, v, w);
  }

  lemma StepKeepsInv(sent: iset<Batch>, v: Server, step: Step)
    requires Inv(sent, v) && Enabled(sent, v, step)
    ensures Inv(sent, Next(sent, v, step)) && Onward(v, Next(sent, v, step))
  {
    match step
    case Insert(i, now, gate, generated) => InsertKeepsInv(sent, v, i, now, gate, generated);
    case Fail(i, rows) => FailKeepsInv(sent, v, i, rows);
    case Record(i) => RecordKeepsInv(sent, v, i);
    case Replay(i) => ReplayKeepsInv(sent, v, i);
    case _ => OnwardKeepsInv(sent, v, Next(sent, v, step));
  }

  // ------------------------------------------------------------------------- runs

  ghost predicate Moves(sent: iset<Batch>, v: Server, w: Server) {
    exists step :: Enabled(sent, v, step) && w == Next(sent, v, step)
  }

  ghost function Steps(sent: iset<Batch>): (Server, Server) -> bool { (v, w) => Moves(sent, v, w) }

  /** A server that has done nothing yet. */
  predicate Idle(v: Server) { v.calls == map[] && v.cache == {} && v.rows == {} && v.acked == {} }

  lemma RunKeepsInv(sent: iset<Batch>, start: Server, v: Server)
    requires Idle(start) && Run(Steps(sent), start, v)
    ensures Inv(sent, v) && Onward(start, v)
  {
    var inv := w => Inv(sent, w) && Onward(start, w);
    forall a, b {:trigger Steps(sent)(a, b)} | inv(a) && Steps(sent)(a, b) ensures inv(b) {
      var step :| Enabled(sent, a, step) && b == Next(sent, a, step);
      StepKeepsInv(sent, a, step);
    }
    RunKeeps(Steps(sent), inv, start, v);
  }

  lemma Go(sent: iset<Batch>, start: Server, v: Server, step: Step) returns (w: Server)
    requires Run(Steps(sent), start, v) && Enabled(sent, v, step)
    ensures w == Next(sent, v, step) && Run(Steps(sent), start, w)
  {
    w := Next(sent, v, step);
    assert Moves(sent, v, w);
    Then(Steps(sent), start, v, w);
  }

  lemma NewIds(used: set<nat>, n: nat) returns (ids: seq<nat>)
    ensures |ids| == n && (forall i :: 0 <= i < n ==> ids[i] !in used)
    ensures forall i, j :: 0 <= i < j < n ==> ids[i] != ids[j]
  {
    var most := Greatest(used);
    ids := seq(n, i requires 0 <= i < n => most + 1 + i);
    forall i | 0 <= i < n ensures ids[i] !in used {
      assert ids[i] == most + 1 + i;
    }
  }

  lemma Greatest(used: set<nat>) returns (most: nat)
    ensures forall n :: n in used ==> n <= most
    decreases used
  {
    most := 0;
    if used != {} {
      var n :| n in used;
      var rest := Greatest(used - {n});
      most := if n > rest then n else rest;
      forall m | m in used ensures m <= most {
        assert m == n || m in used - {n};
      }
    }
  }

  // ----------------------------------------------------------------------- one key

  /** Rows of one event never show up under two keys. */
  ghost predicate OneKey(v: Server, tenant: string, e: Event) {
    forall r, q :: r in v.rows && q in v.rows && r.key.tenant == q.key.tenant == tenant && r.event == q.event == e
        ==> r.key == q.key
  }

  /** A batch of the tenant that makes a row of the event. */
  ghost predicate Carries(sent: iset<Batch>, b: Batch, tenant: string, e: Event) {
    b in sent && b.tenant == tenant && Names(b, e) && !Throws(b)
  }

  predicate SameReading(b: Batch, c: Batch, e: Event) {
    ServiceOf(b.options, e) == ServiceOf(c.options, e) && Upper(LevelOf(b.options, e)) == Upper(LevelOf(c.options, e))
  }

  /** The event fixes its key: it brings an id and a time, and all batches that carry it
      read the same service and level off it. */
  ghost predicate Fixed(sent: iset<Batch>, tenant: string, e: Event) {
    forall b, c :: Carries(sent, b, tenant, e) && Carries(sent, c, tenant, e)
      ==> e.id.Some? && e.stamp.At? && SameReading(b, c, e)
  }

  /** An event collapses to one row in every run exactly when it fixes its key. */
  lemma OneKeyIffFixed(sent: iset<Batch>, start: Server, tenant: string, e: Event)
    requires Idle(start)
    ensures (forall v :: Run(Steps(sent), start, v) ==> OneKey(v, tenant, e)) <==> Fixed(sent, tenant, e)
  {
    if Fixed(sent, tenant, e) {
      forall v | Run(Steps(sent), start, v) ensures OneKey(v, tenant, e) {
        RunKeepsInv(sent, start, v);
        FixedIsOneKey(sent, v, tenant, e);
      }
    } else {
      var b, c :| Carries(sent, b, tenant, e) && Carries(sent, c, tenant, e)
                  && !(e.id.Some? && e.stamp.At? && SameReading(b, c, e));
      var v := TwoKeys(sent, start, b, c, e);
    }
  }

  lemma FixedIsOneKey(sent: iset<Batch>, v: Server, tenant: string, e: Event)
    requires Inv(sent, v) && Fixed(sent, tenant, e)
    ensures OneKey(v, tenant, e)
  {
    forall r, q | r in v.rows && q in v.rows && r.key.tenant == q.key.tenant == tenant && r.event == q.event == e
      ensures r.key == q.key
    {
      assert RowOk(sent, r) && RowOk(sent, q);
      var b :| b in sent && FromBatch(b, r);
      var c :| c in sent && FromBatch(c, q);
      assert Carries(sent, b, tenant, e) && Carries(sent, c, tenant, e);
      SameKey(b, c, r, q, e);
    }
  }

  lemma SameKey(b: Batch, c: Batch, r: Row, q: Row, e: Event)
    requires FromBatch(b, r) && FromBatch(c, q) && b.tenant == c.tenant && r.event == q.event == e
    requires e.id.Some? && e.stamp.At? && SameReading(b, c, e)
    ensures r.key == q.key
  {
  }

  /** Ingesting a batch from the start to its rows. */
  lemma Ingested(sent: iset<Batch>, start: Server, v: Server, i: nat, b: Batch, e: Event, now: Time)
    returns (w: Server, n: nat)
    requires Run(Steps(sent), start, v) && i !in v.calls && Carries(sent, b, b.tenant, e)
    ensures Run(Steps(sent), start, w) && w.calls.Keys == v.calls.Keys + {i} && v.rows <= w.rows
    ensures RowIn(b, e, now, n) in w.rows && n !in Used(v.rows)
  {
    var u := Go(sent, start, v, Arrive(i, b));
    var gate := Least(v.strictest, Level(b, e));
    var ids := NewIds(Used(v.rows), |b.events|);
    w := Go(sent, start, u, Insert(i, now, gate, ids));
    var k :| 0 <= k < |b.events| && b.events[k] == e;
    n := ids[k];
    assert RowIn(b, b.events[k], now, ids[k]) in RowsOf(b, now, gate, ids);
  }

  /** Two calls race past the cache, each with an ingest time and made-up ids of its own. */
  lemma TwoKeys(sent: iset<Batch>, start: Server, b: Batch, c: Batch, e: Event) returns (v: Server)
    requires Idle(start) && Carries(sent, b, b.tenant, e) && Carries(sent, c, b.tenant, e)
    requires !(e.id.Some? && e.stamp.At? && SameReading(b, c, e))
    ensures Run(Steps(sent), start, v) && !OneKey(v, b.tenant, e)
  {
    Nothing(Steps(sent), start);
    var u, m := Ingested(sent, start, start, 0, b, e, "0");
    var w, n := Ingested(sent, start, u, 1, c, e, "1");
    v := w;
    var r, q := RowIn(b, e, "0", m), RowIn(c, e, "1", n);
    assert e.id.None? ==> m in Used(u.rows);
    assert r in v.rows && q in v.rows && r.key != q.key;
  }

  // ------------------------------------------------------------------------- stored

  /** A batch that, recorded, lets an event of `b` be taken for stored: it keeps one of
      its events through some gate that does not keep `e` in it. */
  predicate Hides(c: Batch, b: Batch, e: Event, f: Event) {
    && !Throws(c) && Names(c, f)
    && !Kept(c, e, Least(Level(b, e), Level(c, f)))
  }

  /** No batch sent under the key of `b` can do that. */
  ghost predicate Safe(sent: iset<Batch>, b: Batch, e: Event) {
    BatchKey(b).Some? ==>
      forall c, f :: c in sent && c.tenant == b.tenant && BatchKey(c) == BatchKey(b) ==> !Hides(c, b, e, f)
  }

  /** A batch that was answered with a 2xx has stored an event, which passes every gate,
      in every run exactly when all batches sent under its key would. */
  lemma StoredIffSafe(sent: iset<Batch>, start: Server, b: Batch, e: Event)
    requires Idle(start) && b in sent && Kept(b, e, start.strictest)
    ensures (forall v :: Run(Steps(sent), start, v) && b in v.acked && Kept(b, e, v.strictest)
               ==> Has(v.rows, b.tenant, e))
       <==> Throws(b) || Safe(sent, b, e)
  {
    if Throws(b) || Safe(sent, b, e) {
      forall v | Run(Steps(sent), start, v) && b in v.acked && Kept(b, e, v.strictest)
        ensures Has(v.rows, b.tenant, e)
      {
        RunKeepsInv(sent, start, v);
        AckedIsStored(sent, v, b, e);
      }
    } else {
      var c, f :| c in sent && c.tenant == b.tenant && BatchKey(c) == BatchKey(b) && Hides(c, b, e, f);
      var v := TakenForReplay(sent, start, b, e, c, f);
    }
  }

  lemma AckedIsStored(sent: iset<Batch>, v: Server, b: Batch, e: Event)
    requires Inv(sent, v) && b in v.acked && Kept(b, e, v.strictest) && (Throws(b) || Safe(sent, b, e))
    ensures Has(v.rows, b.tenant, e)
  {
    assert AckedOk(sent, v, b);
    if gate :| Filed(v, b, gate) {
      assert Kept(b, e, gate);
    } else {
      var c, gate :| RecordedAs(sent, v, c, gate, b.tenant, BatchKey(b).value);
      var f :| f in c.events && Kept(c, f, gate);
      assert !Hides(c, b, e, f);
      assert Kept(c, e, gate);
    }
  }

  /** A batch is ingested through a gate and its result cached. */
  lemma RecordedUnder(sent: iset<Batch>, start: Server, v: Server, c: Batch, f: Event, gate: Severity)
    returns (w: Server)
    requires Run(Steps(sent), start, v) && v.calls == map[] && v.rows == {} && gate <= v.strictest
    requires c in sent && !Throws(c) && BatchKey(c).Some? && Kept(c, f, gate)
    ensures Run(Steps(sent), start, w) && w.calls == map[] && w.strictest == v.strictest
    ensures (c.tenant, BatchKey(c).value) in w.cache && forall r :: r in w.rows ==> Kept(c, r.event, gate)
  {
    var u := Go(sent, start, v, Arrive(0, c));
    var ids := NewIds(Used(v.rows), |c.events|);
    assert KeepsSome(c, gate);
    u := Go(sent, start, u, Insert(0, "", gate, ids));
    w := Go(sent, start, u, Record(0));
  }

  /** The batch `c` is recorded through a gate that stops `e` in it, and `b` is taken for
      a replay of it. */
  lemma TakenForReplay(sent: iset<Batch>, start: Server, b: Batch, e: Event, c: Batch, f: Event) returns (v: Server)
    requires Idle(start) && b in sent && !Throws(b) && Kept(b, e, start.strictest)
    requires c in sent && c.tenant == b.tenant && BatchKey(c) == BatchKey(b) && BatchKey(b).Some? && Hides(c, b, e, f)
    ensures Run(Steps(sent), start, v) && b in v.acked && Kept(b, e, v.strictest) && !Has(v.rows, b.tenant, e)
  {
    Nothing(Steps(sent), start);
    v := Go(sent, start, start, Raise(Level(b, e)));
    v := RecordedUnder(sent, start, v, c, f, Least(Level(b, e), Level(c, f)));
    v := Go(sent, start, v, Arrive(1, b));
    v := Go(sent, start, v, Replay(1));
  }

  // ------------------------------------------------------------------- exactly once

  /** An acknowledged batch of the tenant that has the event and lets it pass. */
  ghost predicate Acked(v: Server, tenant: string, e: Event) {
    exists b :: b in v.acked && b.tenant == tenant && Kept(b, e, v.strictest)
  }

  /** No batch of the tenant with the event can be taken for a replay without it. */
  ghost predicate AllSafe(sent: iset<Batch>, strictest: Severity, tenant: string, e: Event) {
    forall b :: b in sent && b.tenant == tenant && Kept(b, e, strictest) && !Throws(b) ==> Safe(sent, b, e)
  }

  ghost predicate OnceAt(v: Server, tenant: string, e: Event) {
    OneKey(v, tenant, e) && (Acked(v, tenant, e) ==> Has(v.rows, tenant, e))
  }

  /** Exactly once: in every run an event has at most one key, and a row if any batch
      that has it and lets it pass was acknowledged, exactly when it fixes its key and no
      batch is sent under the key of such a batch that can hide it. */
  lemma OnceIff(sent: iset<Batch>, start: Server, tenant: string, e: Event)
    requires Idle(start)
    ensures (forall v :: Run(Steps(sent), start, v) ==> OnceAt(v, tenant, e))
       <==> Fixed(sent, tenant, e) && AllSafe(sent, start.strictest, tenant, e)
  {
    OneKeyIffFixed(sent, start, tenant, e);
    if Fixed(sent, tenant, e) && AllSafe(sent, start.strictest, tenant, e) {
      forall v | Run(Steps(sent), start, v) ensures OnceAt(v, tenant, e) {
        SafeIsStored(sent, start, v, tenant, e);
      }
    } else if Fixed(sent, tenant, e) {
      var b :| b in sent && b.tenant == tenant && Kept(b, e, start.strictest) && !Throws(b) && !Safe(sent, b, e);
      StoredIffSafe(sent, start, b, e);
      var v :| Run(Steps(sent), start, v) && b in v.acked && Kept(b, e, v.strictest) && !Has(v.rows, b.tenant, e);
      assert Acked(v, tenant, e) && !OnceAt(v, tenant, e);
    } else {
      var v :| Run(Steps(sent), start, v) && !OneKey(v, tenant, e);
      assert !OnceAt(v, tenant, e);
    }
  }

  lemma SafeIsStored(sent: iset<Batch>, start: Server, v: Server, tenant: string, e: Event)
    requires Idle(start) && Run(Steps(sent), start, v) && AllSafe(sent, start.strictest, tenant, e)
    ensures Acked(v, tenant, e) ==> Has(v.rows, tenant, e)
  {
    RunKeepsInv(sent, start, v);
    if b :| b in v.acked && b.tenant == tenant && Kept(b, e, v.strictest) {
      assert AckedOk(sent, v, b);
      AckedIsStored(sent, v, b, e);
    }
  }

  // -------------------------------------------------------------- when that is so

  /** No two events that are sent for a tenant share an id. */
  ghost predicate Agree(sent: iset<Batch>) {
    forall b, c, e, f ::
      b in sent && c in sent && b.tenant == c.tenant && e in b.events && f in c.events && e.id.Some? && e.id == f.id
      ==> e == f
  }

  /** The key of the header, if there is one, is the digest of the ids of the batch. */
  predicate DigestKeyed(b: Batch) { b.header.Some? ==> b.header.value == Digest(multiset(Ids(b.events))) }

  /** All of a tenant's batches carry one set of options, and digests for keys. */
  ghost predicate Alike(sent: iset<Batch>, tenant: string, o: Options) {
    forall b :: b in sent && b.tenant == tenant ==> b.options == o && DigestKeyed(b)
  }

  /** A digest names events of the batch, and all its ids of events that parse. */
  lemma KeyNames(b: Batch, id: Id)
    requires DigestKeyed(b) && BatchKey(b).Some?
    ensures BatchKey(b).value.Digest?
    ensures id in BatchKey(b).value.ids ==> HasId(b.events, Some(id))
    ensures HasId(Parsed(b.options, b.events), Some(id)) ==> id in BatchKey(b).value.ids
  {
    IdsAre(b.events, id);
    IdsAre(Parsed(b.options, b.events), id);
    ParsedAre(b.options, b.events);
  }

  lemma AlikeIsSafe(sent: iset<Batch>, tenant: string, o: Options, b: Batch, e: Event)
    requires Agree(sent) && Alike(sent, tenant, o) && b in sent && b.tenant == tenant && Names(b, e) && e.id.Some?
    ensures Safe(sent, b, e)
  {
    forall c, f | BatchKey(b).Some? && c in sent && c.tenant == tenant && BatchKey(c) == BatchKey(b)
      ensures !Hides(c, b, e, f)
    {
      SameKeyNames(b, c, e);
      var g :| g in c.events && g.id == e.id;
      assert g == e;
    }
  }

  /** Of two batches under one digest the one names what the other does. */
  lemma SameKeyNames(b: Batch, c: Batch, e: Event)
    requires DigestKeyed(b) && DigestKeyed(c) && BatchKey(b).Some? && BatchKey(c) == BatchKey(b)
    requires Names(b, e) && e.id.Some?
    ensures HasId(c.events, e.id)
  {
    ParsedAre(b.options, b.events);
    KeyNames(b, e.id.value);
    KeyNames(c, e.id.value);
  }

  /** An event with an id and a time is there exactly once, in every run, where all of
      the tenant's batches carry the same options and have digests for keys. */
  lemma AlikeIsOnce(sent: iset<Batch>, start: Server, tenant: string, o: Options, e: Event)
    requires Idle(start) && Agree(sent) && Alike(sent, tenant, o) && e.id.Some? && e.stamp != Absent
    ensures Fixed(sent, tenant, e) && AllSafe(sent, start.strictest, tenant, e)
  {
    forall b | b in sent && b.tenant == tenant && Kept(b, e, start.strictest) && !Throws(b) ensures Safe(sent, b, e) {
      AlikeIsSafe(sent, tenant, o, b, e);
    }
  }

  // ------------------------------------------------------- events that have no id

  /** The batch without the copies of one event. */
  function Less(events: seq<Event>, e: Event): seq<Event> {
    if events == [] then [] else (if events[0] == e then [] else [events[0]]) + Less(events[1..], e)
  }

  lemma {:induction false} LessIsLess(events: seq<Event>, e: Event)
    ensures forall f :: f in Less(events, e) <==> f in events && f != e
  {
    if events != [] {
      LessIsLess(events[1..], e);
      assert events == [events[0]] + events[1..];
    }
  }

  lemma IdsCons(o: Options, e: Event, rest: seq<Event>)
    ensures Ids([e] + rest) == (if e.id.Some? then [e.id.value] else []) + Ids(rest)
    ensures Parsed(o, [e] + rest) == (if Parses(o, e) then [e] else []) + Parsed(o, rest)
  {
    assert ([e] + rest)[1..] == rest;
  }

  /** The ids of the events that parse, one event at a time. */
  lemma ParsedIdsCons(o: Options, e: Event, rest: seq<Event>)
    ensures Ids(Parsed(o, [e] + rest))
         == (if Parses(o, e) && e.id.Some? then [e.id.value] else []) + Ids(Parsed(o, rest))
  {
    IdsCons(o, e, rest);
    IdsCons(o, e, Parsed(o, rest));
    assert [] + Parsed(o, rest) == Parsed(o, rest) && [] + Ids(Parsed(o, rest)) == Ids(Parsed(o, rest));
  }

  /** An event without an id leaves no trace in the ids. */
  lemma {:induction false} LessHasSameIds(o: Options, events: seq<Event>, e: Event)
    requires e.id == None
    ensures Ids(Less(events, e)) == Ids(events) && Ids(Parsed(o, Less(events, e))) == Ids(Parsed(o, events))
  {
    if events != [] {
      var first, rest := events[0], events[1..];
      LessHasSameIds(o, rest, e);
      assert events == [first] + rest;
      IdsCons(o, first, rest);
      IdsCons(o, first, Less(rest, e));
      ParsedIdsCons(o, first, rest);
      ParsedIdsCons(o, first, Less(rest, e));
      assert Less(events, e) == if first == e then Less(rest, e) else [first] + Less(rest, e);
    }
  }

  /** The batch with another event, which has no id either, in the place of one. */
  function Swapped(b: Batch, e: Event): Batch {
    b.(events := [Other(e)] + Less(b.events, e))
  }

  function Other(e: Event): Event { e.(top := e.top["note" := if "note" in e.top then e.top["note"] + "'" else ""]) }

  lemma OtherIsOther(e: Event)
    ensures Other(e) != e
  {
    assert "note" in Other(e).top;
    assert "note" in e.top ==> |Other(e).top["note"]| == |e.top["note"]| + 1;
  }

  lemma SwappedHides(b: Batch, e: Event)
    requires e.id == None && Names(b, e) && !Throws(b) && DigestKeyed(b) && BatchKey(b).Some?
    ensures DigestKeyed(Swapped(b, e)) && BatchKey(Swapped(b, e)) == BatchKey(b)
    ensures Hides(Swapped(b, e), b, e, Other(e))
  {
    var c, rest := Swapped(b, e), Less(b.events, e);
    OtherIsOther(e);
    LessIsLess(b.events, e);
    LessHasSameIds(b.options, b.events, e);
    IdsCons(b.options, Other(e), rest);
    ParsedIdsCons(b.options, Other(e), rest);
    assert [] + Ids(rest) == Ids(rest) && [] + Ids(Parsed(b.options, rest)) == Ids(Parsed(b.options, rest));
    assert Other(e) in c.events && forall f :: f in c.events ==> f == Other(e) || f in rest;
  }

  /** Callers are free to send another event without an id in the place of one. */
  ghost predicate Varied(sent: iset<Batch>, tenant: string) {
    forall b, e :: b in sent && b.tenant == tenant && e in b.events && e.id == None ==> Swapped(b, e) in sent
  }

  /** Where batches carry the same options and digests for keys, a batch that was
      answered with a 2xx has stored an event in every run exactly when the event has an
      id or the batch has no key. */
  lemma StoredIffNamed(sent: iset<Batch>, start: Server, o: Options, b: Batch, e: Event)
    requires Idle(start) && b in sent && Kept(b, e, start.strictest) && !Throws(b)
    requires Agree(sent) && Alike(sent, b.tenant, o) && Varied(sent, b.tenant)
    ensures (forall v :: Run(Steps(sent), start, v) && b in v.acked && Kept(b, e, v.strictest)
               ==> Has(v.rows, b.tenant, e))
       <==> e.id.Some? || BatchKey(b).None?
  {
    StoredIffSafe(sent, start, b, e);
    if e.id.Some? {
      AlikeIsSafe(sent, b.tenant, o, b, e);
    } else if BatchKey(b).Some? {
      SwappedHides(b, e);
      assert Swapped(b, e) in sent;
    }
  }
}
