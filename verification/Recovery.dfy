/**
  The recovery sweep (services/api/src/recovery/reconcile.ts): rows that were stored
  without a template are clustered again, inserted anew and then deleted, page by
  page behind a rising id.
*/
module Recovery {
  import opened Base

  /** A row of log_metadata: its id, what recovery carries over (tenant and body), its
      template, and the message kept while there is none. */
  datatype Row = Row(id: nat, tenant: string, body: string, template: string, message: Option<string>)

  type Table = seq<Row>

  const UNCLUSTERED := "0"
  const DELETE_FAILURE_THRESHOLD := 5

  predicate Eligible(r: Row) { r.template == UNCLUSTERED && r.message.Some? }

  /** What a row says, whatever its id and template. */
  function Payload(r: Row): (string, string) { (r.tenant, r.body) }

  /** How often a payload is there. */
  function Count(table: Table, p: (string, string)): nat {
    if table == [] then 0 else (if Payload(table[0]) == p then 1 else 0) + Count(table[1..], p)
  }

  function IdsOf(rows: seq<Row>): set<nat> { set r | r in rows :: r.id }

  predicate UniqueIds(table: Table) {
    table == [] || (table[0].id !in IdsOf(table[1..]) && UniqueIds(table[1..]))
  }

  // -------------------------------------------------------------------- the query

  /** The eligible row of the least id above the cursor. */
  function NextRow(table: Table, cursor: nat): (r: Option<Row>)
    ensures r.Some? ==> r.value in table && Eligible(r.value) && r.value.id > cursor
    ensures forall x :: x in table && Eligible(x) && x.id > cursor ==> r.Some? && r.value.id <= x.id
  {
    if table == [] then None
    else
      var first, r := table[0], NextRow(table[1..], cursor);
      assert forall x :: x in table ==> x == first || x in table[1..];
      if Eligible(first) && first.id > cursor && (r.None? || first.id <= r.value.id) then Some(first) else r
  }

  /** A page: the next eligible rows by id. */
  function FetchPage(table: Table, cursor: nat, limit: nat): (rows: seq<Row>)
    ensures |rows| <= limit
    ensures forall r :: r in rows ==> r in table && Eligible(r) && r.id > cursor
    ensures rows == [] ==> limit == 0 || forall x :: x in table && Eligible(x) ==> x.id <= cursor
    decreases limit
  {
    if limit == 0 || NextRow(table, cursor).None? then []
    else
      var r := NextRow(table, cursor).value;
      [r] + FetchPage(table, r.id, limit - 1)
  }

  ghost predicate Rising(cursor: nat, rows: seq<Row>)
    decreases |rows|
  {
    rows == [] || (rows[0].id > cursor && Rising(rows[0].id, rows[1..]))
  }

  function LastId(cursor: nat, rows: seq<Row>): nat { if rows == [] then cursor else rows[|rows| - 1].id }

  lemma {:induction false} PageIsRising(table: Table, cursor: nat, limit: nat)
    ensures Rising(cursor, FetchPage(table, cursor, limit))
    decreases limit
  {
    if limit > 0 && NextRow(table, cursor).Some? {
      var r := NextRow(table, cursor).value;
      PageIsRising(table, r.id, limit - 1);
      assert FetchPage(table, cursor, limit)[1..] == FetchPage(table, r.id, limit - 1);
    }
  }

  // ---------------------------------------------------------------------- payloads

  lemma {:induction false} CountConcat(a: Table, b: Table, p: (string, string))
    ensures Count(a + b, p) == Count(a, p) + Count(b, p)
  {
    if a == [] {
      assert a + b == b;
    } else {
      assert (a + b)[1..] == a[1..] + b;
      CountConcat(a[1..], b, p);
    }
  }

  /** Deleting rows of a tenant by their ids. */
  function Without(table: Table, tenant: string, ids: set<nat>): (out: Table)
  {
    if table == [] then []
    else (if table[0].tenant == tenant && table[0].id in ids then [] else [table[0]]) + Without(table[1..], tenant, ids)
  }

  lemma {:induction false} WithoutIs(table: Table, tenant: string, ids: set<nat>)
    ensures forall r :: r in Without(table, tenant, ids) <==> r in table && !(r.tenant == tenant && r.id in ids)
    ensures UniqueIds(table) ==> UniqueIds(Without(table, tenant, ids))
  {
    if table != [] {
      var first, rest := table[0], Without(table[1..], tenant, ids);
      WithoutIs(table[1..], tenant, ids);
      assert table == [first] + table[1..];
      if first.tenant == tenant && first.id in ids {
        assert Without(table, tenant, ids) == rest;
      } else {
        assert Without(table, tenant, ids)[1..] == rest;
      }
    }
  }

  lemma {:induction false} WithoutNone(table: Table, tenant: string, ids: set<nat>)
    requires forall r :: r in table ==> r.id !in ids
    ensures Without(table, tenant, ids) == table
  {
    if table != [] {
      WithoutNone(table[1..], tenant, ids);
    }
  }

  lemma {:induction false} WithoutMore(table: Table, tenant: string, ids: set<nat>, id: nat)
    ensures Without(table, tenant, ids + {id}) == Without(Without(table, tenant, ids), tenant, {id})
  {
    if table != [] {
      var first, rest := table[0], Without(table[1..], tenant, ids);
      WithoutMore(table[1..], tenant, ids, id);
      assert ([first] + rest)[1..] == rest && [] + rest == rest;
    }
  }

  /** Deleting one row takes away its payload once. */
  lemma {:induction false} DeleteOne(table: Table, r: Row, p: (string, string))
    requires r in table && UniqueIds(table)
    ensures Count(Without(table, r.tenant, {r.id}), p) + (if Payload(r) == p then 1 else 0) == Count(table, p)
  {
    var first, rest := table[0], Without(table[1..], r.tenant, {r.id});
    assert table == [first] + table[1..];
    if first == r {
      forall x | x in table[1..] ensures x.id != r.id {
        assert x.id in IdsOf(table[1..]);
      }
      WithoutNone(table[1..], r.tenant, {r.id});
      assert [] + rest == rest;
    } else {
      assert r.id in IdsOf(table[1..]);
      DeleteOne(table[1..], r, p);
      assert ([first] + rest)[1..] == rest;
    }
  }

  /** Deleting rows that are there takes away their payloads. */
  lemma {:induction false} DeleteAll(table: Table, tenant: string, rows: seq<Row>, p: (string, string))
    requires UniqueIds(table) && UniqueIds(rows)
    requires forall r :: r in rows ==> r in table && r.tenant == tenant
    ensures Count(Without(table, tenant, IdsOf(rows)), p) + Count(rows, p) == Count(table, p)
  {
    if rows == [] {
      WithoutNone(table, tenant, IdsOf(rows));
    } else {
      var r, rest := rows[0], rows[1..];
      assert rows == [r] + rest;
      DeleteAll(table, tenant, rest, p);
      WithoutMore(table, tenant, IdsOf(rest), r.id);
      assert IdsOf(rows) == IdsOf(rest) + {r.id};
      WithoutIs(table, tenant, IdsOf(rest));
      DeleteOne(Without(table, tenant, IdsOf(rest)), r, p);
    }
  }

  /** The rows of a set of ids among those deleted. */
  function Only(rows: seq<Row>, ids: set<nat>): seq<Row> {
    if rows == [] then [] else (if rows[0].id in ids then [rows[0]] else []) + Only(rows[1..], ids)
  }

  lemma {:induction false} OnlyIs(rows: seq<Row>, ids: set<nat>, p: (string, string))
    ensures Count(Only(rows, ids), p) <= Count(rows, p)
    ensures forall r :: r in Only(rows, ids) <==> r in rows && r.id in ids
    ensures UniqueIds(rows) ==> UniqueIds(Only(rows, ids))
  {
    if rows != [] {
      var first, rest := rows[0], Only(rows[1..], ids);
      OnlyIs(rows[1..], ids, p);
      assert rows == [first] + rows[1..];
      if first.id in ids {
        assert Only(rows, ids)[1..] == rest;
      } else {
        assert Only(rows, ids) == rest;
      }
    }
  }

  // ------------------------------------------------------------------------ a batch

  /** How a write ends: all of it done; or an error is reported, with the rows of
      `which` (by position of an insert, by id of a delete) written all the same. */
  datatype Effect = Done | Fails(which: set<nat>)

  /** What befalls one batch: the template the clusterer gives each message, and
      whether it was too slow, and the effects of the two writes. */
  datatype Fate = Fate(template: Row -> string, slow: bool, insert: Effect, delete: Effect)

  /** The rows that got a template. */
  function Recoverable(rows: seq<Row>, template: Row -> string): (out: seq<Row>)
    ensures |out| <= |rows|
    ensures forall r :: r in out <==> r in rows && template(r) != UNCLUSTERED
  {
    if rows == [] then []
    else
      assert rows == [rows[0]] + rows[1..];
      (if template(rows[0]) != UNCLUSTERED then [rows[0]] else []) + Recoverable(rows[1..], template)
  }

  lemma {:induction false} RecoverableIsUnique(rows: seq<Row>, template: Row -> string)
    requires UniqueIds(rows)
    ensures UniqueIds(Recoverable(rows, template))
  {
    if rows != [] {
      var rest := Recoverable(rows[1..], template);
      RecoverableIsUnique(rows[1..], template);
      assert ([rows[0]] + rest)[1..] == rest && [] + rest == rest;
    }
  }

  /** The rows inserted in their place, under fresh ids from `id` on. */
  function NewRows(rows: seq<Row>, template: Row -> string, id: nat): (out: seq<Row>)
    ensures |out| == |rows|
  {
    if rows == [] then []
    else [Row(id, rows[0].tenant, rows[0].body, template(rows[0]), None)] + NewRows(rows[1..], template, id + 1)
  }

  /** What stands in the place of a row: the same payload, with a template and no message. */
  predicate IsNewOf(q: Row, r: Row, template: string) {
    Payload(q) == Payload(r) && q.template == template && q.message == None
  }

  lemma {:induction false} NewRowAt(rows: seq<Row>, template: Row -> string, id: nat, i: nat)
    requires i < |rows|
    ensures var q := NewRows(rows, template, id)[i]; q.id == id + i && IsNewOf(q, rows[i], template(rows[i]))
  {
    if i > 0 {
      NewRowAt(rows[1..], template, id + 1, i - 1);
    }
  }

  /** A row of the table stands in the place of another. */
  ghost predicate PutIn(table: Table, r: Row, template: string) { exists q :: q in table && IsNewOf(q, r, template) }

  lemma NewRowsArePutIn(table: Table, rows: seq<Row>, template: Row -> string, id: nat)
    requires forall q :: q in NewRows(rows, template, id) ==> q in table
    ensures forall r :: r in rows ==> PutIn(table, r, template(r))
  {
    forall r | r in rows ensures PutIn(table, r, template(r)) {
      var i :| 0 <= i < |rows| && rows[i] == r;
      NewRowAt(rows, template, id, i);
      assert NewRows(rows, template, id)[i] in table;
    }
  }

  lemma {:induction false} NewRowsAre(rows: seq<Row>, template: Row -> string, id: nat, p: (string, string))
    requires forall r :: r in rows ==> template(r) != UNCLUSTERED
    ensures Count(NewRows(rows, template, id), p) == Count(rows, p)
    ensures forall r :: r in NewRows(rows, template, id) ==> r.template != UNCLUSTERED && id <= r.id < id + |rows|
    ensures UniqueIds(NewRows(rows, template, id))
  {
    if rows != [] {
      var rest := NewRows(rows[1..], template, id + 1);
      NewRowsAre(rows[1..], template, id + 1, p);
      assert NewRows(rows, template, id)[1..] == rest;
    }
  }

  lemma {:induction false} UniqueConcat(a: Table, b: Table)
    requires UniqueIds(a) && UniqueIds(b) && IdsOf(a) !! IdsOf(b)
    ensures UniqueIds(a + b)
  {
    if a == [] {
      assert a + b == b;
    } else {
      assert (a + b)[1..] == a[1..] + b;
      assert a[0].id in IdsOf(a);
      UniqueConcat(a[1..], b);
    }
  }

  /** The table after the insert, and after the delete. */
  function Written(rows: seq<Row>, effect: Effect, id: nat): seq<Row> {
    if effect.Done? then rows else Only(rows, set k | k in effect.which :: id + k)
  }

  function Inserted(table: Table, rows: seq<Row>, effect: Effect, id: nat): Table { table + Written(rows, effect, id) }

  function Deleted(table: Table, tenant: string, rows: seq<Row>, effect: Effect): Table {
    Without(table, tenant, if effect.Done? then IdsOf(rows) else IdsOf(rows) * effect.which)
  }

  /** Every payload is there as often as before, or more. */
  ghost predicate KeepsAll(before: Table, after: Table) {
    forall p :: Count(after, p) >= Count(before, p)
  }

  lemma InsertKeepsAll(table: Table, rows: seq<Row>, effect: Effect, id: nat)
    ensures KeepsAll(table, Inserted(table, rows, effect, id))
    ensures effect.Done? ==> forall p :: Count(Inserted(table, rows, effect, id), p) == Count(table, p) + Count(rows, p)
  {
    forall p ensures Count(Inserted(table, rows, effect, id), p) >= Count(table, p)
             ensures effect.Done? ==> Count(Inserted(table, rows, effect, id), p) == Count(table, p) + Count(rows, p) {
      CountConcat(table, Written(rows, effect, id), p);
    }
  }

  /** Deleting some of the rows that were inserted anew. */
  lemma DeleteKeepsAll(before: Table, table: Table, tenant: string, rows: seq<Row>, effect: Effect)
    requires UniqueIds(table) && UniqueIds(rows) && forall r :: r in rows ==> r in table && r.tenant == tenant
    requires forall p :: Count(table, p) == Count(before, p) + Count(rows, p)
    ensures KeepsAll(before, Deleted(table, tenant, rows, effect))
    ensures effect.Done? ==> forall p :: Count(Deleted(table, tenant, rows, effect), p) == Count(before, p)
  {
    forall p ensures Count(Deleted(table, tenant, rows, effect), p) >= Count(before, p)
             ensures effect.Done? ==> Count(Deleted(table, tenant, rows, effect), p) == Count(before, p) {
      if effect.Done? {
        DeleteAll(table, tenant, rows, p);
      } else {
        var some := Only(rows, effect.which);
        OnlyIs(rows, effect.which, p);
        assert IdsOf(some) == IdsOf(rows) * effect.which;
        DeleteAll(table, tenant, some, p);
      }
    }
  }

  // ---------------------------------------------------------------- failing deletes

  /** How many deletes in a row failed last. */
  function Trailing(outcomes: seq<bool>): (n: nat)
    ensures n <= |outcomes|
  {
    if outcomes == [] || outcomes[|outcomes| - 1] then 0 else 1 + Trailing(outcomes[..|outcomes| - 1])
  }

  lemma {:induction false} AllFailed(outcomes: seq<bool>)
    requires forall i :: 0 <= i < |outcomes| ==> !outcomes[i]
    ensures Trailing(outcomes) == |outcomes|
  {
    if outcomes != [] {
      AllFailed(outcomes[..|outcomes| - 1]);
    }
  }

  function Outcomes(outcomes: map<string, seq<bool>>, tenant: string): seq<bool> {
    if tenant in outcomes then outcomes[tenant] else []
  }

  function Failures(failures: map<string, nat>, tenant: string): nat {
    if tenant in failures then failures[tenant] else 0
  }

  /** A counter tells the failures in a row; at the fifth the tenant is given up. */
  predicate CounterOk(outcomes: seq<bool>, failures: nat, skipped: bool) {
    if skipped then failures == 0 && Trailing(outcomes) == DELETE_FAILURE_THRESHOLD
    else Trailing(outcomes) == failures < DELETE_FAILURE_THRESHOLD
  }

  ghost predicate CountersOk(failures: map<string, nat>, skipped: set<string>, outcomes: map<string, seq<bool>>) {
    forall t :: CounterOk(Outcomes(outcomes, t), Failures(failures, t), t in skipped)
  }

  /** The verdict on the counters as a value: what the methods carry along. */
  ghost function Judged(failures: map<string, nat>, skipped: set<string>, outcomes: map<string, seq<bool>>): Verdict {
    if CountersOk(failures, skipped, outcomes) then Upheld else Violated
  }

  /** A tenant whose deletes always fail is inserted anew at most five times in the
      life of a process. */
  lemma FailingTenantIsBounded(failures: map<string, nat>, skipped: set<string>, outcomes: map<string, seq<bool>>,
        t: string)
    requires Judged(failures, skipped, outcomes) == Upheld
    requires forall i :: 0 <= i < |Outcomes(outcomes, t)| ==> !Outcomes(outcomes, t)[i]
    ensures |Outcomes(outcomes, t)| <= DELETE_FAILURE_THRESHOLD
  {
    AllFailed(Outcomes(outcomes, t));
    assert CounterOk(Outcomes(outcomes, t), Failures(failures, t), t in skipped);
  }

  // ------------------------------------------------------------------- one sweep

  class RecoverySweep {
    var table: Table
    var nextId: nat                        // the ids that the database generates
    var failures: map<string, nat>
    var skipped: set<string>
    ghost var writes: seq<Table>           // the table after each write: what a crash can leave
    ghost var outcomes: map<string, seq<bool>>  // of each tenant's deletes

    constructor (table: Table, nextId: nat)
      requires UniqueIds(table) && forall r :: r in table ==> r.id < nextId
      ensures Valid() && this.table == table && writes == [] && outcomes == map[]
    {
      this.table, this.nextId, failures, skipped := table, nextId, map[], {};
      writes, outcomes := [], map[];
    }

    ghost predicate Valid()
      reads this
    {
      && UniqueIds(table) && (forall r :: r in table ==> r.id < nextId)
      && Judged(failures, skipped, outcomes) == Upheld
    }

    /** The insert of the new rows. */
    method BatchInsert(rows: seq<Row>, effect: Effect) returns (threw: bool)
      modifies this`table, this`nextId, this`writes
      ensures threw == effect.Fails?
      ensures table == Inserted(old(table), rows, effect, old(nextId))
      ensures nextId == old(nextId) + |rows| && writes == old(writes) + [table]
    {
      table := Inserted(table, rows, effect, nextId);
      nextId := nextId + |rows|;
      writes := writes + [table];
      threw := effect.Fails?;
    }

    /** The delete of the old ones, and what it does to the counters. */
    method DeleteOld(tenant: string, rows: seq<Row>, effect: Effect)
      requires tenant !in skipped && Judged(failures, skipped, outcomes) == Upheld
      modifies this`table, this`failures, this`skipped, this`writes, this`outcomes
      ensures table == Deleted(old(table), tenant, rows, effect) && writes == old(writes) + [table]
      ensures outcomes == old(outcomes)[tenant := Outcomes(old(outcomes), tenant) + [effect.Done?]]
      ensures Judged(failures, skipped, outcomes) == Upheld
      ensures skipped == old(skipped) || (effect.Fails? && skipped == old(skipped) + {tenant})
    {
      table := Deleted(table, tenant, rows, effect);
      writes := writes + [table];
      CountersStep(failures, skipped, outcomes, tenant, effect.Done?);
      outcomes := outcomes[tenant := Outcomes(outcomes, tenant) + [effect.Done?]];
      RecordOutcome(tenant, effect.Done?);
    }

    /** A success resets the counter; a failure counts, and the fifth in a row gives
        the tenant up. */
    method RecordOutcome(tenant: string, ok: bool)
      modifies this`failures, this`skipped
      ensures failures == FailuresAfter(old(failures), tenant, ok)
      ensures skipped == SkippedAfter(old(failures), old(skipped), tenant, ok)
    {
      if ok {
        failures := failures - {tenant};
      } else {
        var count := Failures(failures, tenant) + 1;
        if count >= DELETE_FAILURE_THRESHOLD {
          skipped := skipped + {tenant};
          failures := failures - {tenant};
        } else {
          failures := failures[tenant := count];
        }
      }
    }

    /** Recovering one tenant's rows of a page: the two writes, in this order, or less. */
    method RecoverTenantBatch(tenant: string, rows: seq<Row>, fate: Fate) returns (recovered: int)
      requires Valid() && tenant !in skipped && PageOf(table, tenant, rows)
      modifies this
      ensures Valid() && (skipped == old(skipped) || (fate.delete.Fails? && skipped == old(skipped) + {tenant}))
      ensures nextId >= old(nextId)
      ensures writes == old(writes) + BatchWrites(old(table), tenant, rows, fate, old(nextId))
      ensures table == AfterBatch(old(table), tenant, rows, fate, old(nextId))
      ensures recovered == if fate.slow then -1 else if fate.insert.Fails?
              then 0 else |Recoverable(rows, fate.template)|
    {
      if fate.slow {
        return -1;
      }
      var recoverable := Recoverable(rows, fate.template);
      if |recoverable| == 0 {
        return 0;
      }
      var threw := Replace(tenant, recoverable, fate);
      recovered := if threw then 0 else |recoverable|;
    }

    /** INSERT first, then DELETE. */
    method Replace(tenant: string, recoverable: seq<Row>, fate: Fate) returns (threw: bool)
      requires Valid() && tenant !in skipped
      requires forall r :: r in recoverable ==> fate.template(r) != UNCLUSTERED && r in table
      modifies this
      ensures Valid() && (skipped == old(skipped) || (fate.delete.Fails? && skipped == old(skipped) + {tenant}))
      ensures threw == fate.insert.Fails? && nextId >= old(nextId)
      ensures writes == old(writes) + Writes(old(table), tenant, recoverable, fate, old(nextId))
      ensures table == writes[|writes| - 1]
    {
      ReplaceIsFine(table, tenant, recoverable, fate, nextId);
      ghost var was := writes;
      threw := BatchInsert(NewRows(recoverable, fate.template, nextId), fate.insert);
      if !threw {
        Appended(was, table, Deleted(table, tenant, recoverable, fate.delete));
        DeleteOld(tenant, recoverable, fate.delete);
      }
    }

    /** The rows of a page, tenant by tenant, in the order of their first rows. */
    method GroupByTenant(rows: seq<Row>) returns (order: seq<string>, byTenant: map<string, seq<Row>>)
      ensures forall t :: t in byTenant <==> t in order
      ensures forall t :: t in byTenant ==> byTenant[t] == OfTenant(rows, t)
      ensures forall r :: r in rows ==> r.tenant in order
      ensures Distinct(order)
    {
      order, byTenant := [], map[];
      ghost var seen: seq<Row> := [];
      for i := 0 to |rows|
        invariant seen == rows[..i]
        invariant byTenant.Keys == Names(order) && Distinct(order)
        invariant Grouped(seen, byTenant)
      {
        var row := rows[i];
        GroupedSnoc(seen, row, byTenant);
        PrefixSnoc(rows, i);
        seen := seen + [row];
        if row.tenant in byTenant {
          byTenant := byTenant[row.tenant := byTenant[row.tenant] + [row]];
        } else {
          DistinctSnoc(order, row.tenant);
          assert [] + [row] == [row];
          NamesSnoc(order, row.tenant);
          order, byTenant := order + [row.tenant], byTenant[row.tenant := [row]];
        }
      }
      assert seen == rows;
      forall r | r in rows ensures r.tenant in order {
        OwnTenantHas(rows, r);
        assert OfTenant(rows, r.tenant) == GroupOf(byTenant, r.tenant);
      }
    }

    /** One tenant of a page, in the course of a sweep. */
    method RecoverOne(tenant: string, rows: seq<Row>, fate: Fate, ghost start: Table, ghost faultless: bool)
      returns (n: int)
      requires Valid() && Course(start, table, writes, faultless) == Upheld && (faultless ==> Faultless(fate))
      requires tenant !in skipped && PageOf(table, tenant, rows)
      modifies this
      ensures Valid() && Course(start, table, writes, faultless) == Upheld && old(skipped) <= skipped
      ensures nextId >= old(nextId)
      ensures n <= |rows| && (n < 0 <==> fate.slow) && Touched(old(table), table, rows) == Upheld
      ensures Healthy(fate)
              ==> n == |rows| && skipped == old(skipped)
                  && forall r :: r in rows ==> r !in table && PutIn(table, r, fate.template(r))
    {
      BatchKeepsFine(start, table, writes, faultless, tenant, rows, fate, nextId);
      BatchRows(table, tenant, rows, fate, nextId);
      AllRecoverable(rows, fate.template);
      if Healthy(fate) {
        BatchPutsIn(table, tenant, rows, fate, nextId);
      }
      n := RecoverTenantBatch(tenant, rows, fate);
    }

    /** The tenants of one page, up to the first that finds the clusterer slow. `start`
        is the table at the start of the sweep, and `faultless` says that no write of
        it fails. */
    method RecoverPage(rows: seq<Row>, fates: nat -> Fate, first: nat, ghost start: Table, ghost faultless: bool)
      returns (recovered: nat, batches: nat, backpressure: bool)
      requires Valid() && Course(start, table, writes, faultless) == Upheld
               && (faultless ==> forall k :: Faultless(fates(k)))
      requires UniqueIds(rows) && forall r :: r in rows ==> r in table && Eligible(r)
      modifies this
      ensures Valid() && Course(start, table, writes, faultless) == Upheld && old(skipped) <= skipped
      ensures nextId >= old(nextId)
      ensures recovered <= |rows| && Touched(old(table), table, rows) == Upheld
              && (backpressure ==> exists k :: fates(k).slow)
      ensures AllHealthy(fates) && old(skipped) == {} ==>
                !backpressure && recovered == |rows| && skipped == {}
                && forall r :: r in rows ==> Recovered(fates, table, r)
    {
      recovered, batches, backpressure := 0, first, false;
      var order, byTenant := GroupByTenant(rows);
      ghost var done: set<string> := {};
      ghost var before, healthy := table, AllHealthy(fates) && skipped == {};
      PageStarts(fates, rows, order, table);
      while |order| > 0
        invariant Valid() && Course(start, table, writes, faultless) == Upheld && old(skipped) <= skipped
        invariant nextId >= old(nextId)
        invariant PageOk(rows, done, recovered, before, table) == Upheld
        invariant healthy ==> skipped == {} && Settled(fates, rows, done, order, recovered, table) == Upheld
        invariant Distinct(order) && forall t :: t in order ==> t !in done && t in byTenant
      {
        var tenant := order[0];
        ghost var was, left, so := table, order, recovered;
        order := order[1..];
        TenantRows(rows, done, tenant, so, before, was);
        if tenant in skipped {
          done := done + {tenant};
          continue;
        }
        var tenantRows, fate := byTenant[tenant], fates(batches);
        batches := batches + 1;
        var n := RecoverOne(tenant, tenantRows, fate, start, faultless);
        PageSteps(fates, batches - 1, rows, done, tenant, tenantRows, left, so, before, was, table, n);
        done := done + {tenant};
        if n < 0 {
          backpressure := true;
          return;
        }
        recovered := recovered + n;
      }
      PageEnds(fates, rows, done, recovered, before, table);
    }

    /** What ingestion stores in the meantime: rows under ids of their own. */
    method Arrive(rows: seq<Row>) returns (added: seq<Row>)
      requires Valid()
      modifies this`table, this`nextId
      ensures Valid() && added == Stamped(rows, old(nextId))
      ensures table == old(table) + added && nextId == old(nextId) + |rows|
    {
      added := Stamped(rows, nextId);
      StampedAre(rows, nextId);
      UniqueConcat(table, added);
      table := table + added;
      nextId := nextId + |rows|;
    }

    /** The sweep, while ingestion stores `arrivals[k]` before the page of number k. It
        ends for every input. At every write each payload is there at least as often as
        at the start, and exactly as often as it was or has arrived at the end if no write
        failed; it recovers at most `maxRows` rows; the ids it fetches rise, so that no
        row is fetched twice; it fetches every eligible row, the ones that arrived
        included, unless it has recovered its maximum or found the clusterer slow; and
        when nothing goes wrong all that it fetches is recovered. */
    method Sweep(maxRows: nat, batchSize: nat, fates: nat -> Fate, arrivals: seq<seq<Row>>)
      returns (totalRecovered: nat, ghost fetched: seq<Row>, ghost arrived: seq<Row>, ghost pages: nat)
      requires Valid()
      modifies this
      ensures Valid() && old(skipped) <= skipped && totalRecovered <= maxRows
      ensures pages <= |arrivals| && Bare(arrived) == Bare(Flat(arrivals[..pages]))
      ensures forall r :: r in arrived ==> r.id >= old(nextId)
      ensures (forall w :: w in writes ==> KeepsAll(old(table), w)) && KeepsAll(old(table) + arrived, table)
      ensures (forall k :: Faultless(fates(k))) ==> KeepsAll(table, old(table) + arrived)
      ensures NoneMade(old(table) + arrived, table) && forall w :: w in writes ==> NoneMade(old(table) + arrived, w)
      ensures Rising(0, fetched)
      ensures forall r :: r in fetched ==> r in old(table) + arrived && r.template == "0" && r.message.Some?
      ensures totalRecovered < maxRows && batchSize > 0 && (forall k :: !fates(k).slow)
              ==> forall r :: r in old(table) + arrived && r.template == "0" && r.message.Some? && r.id > 0
                    ==> r in fetched
      ensures AllHealthy(fates) && old(skipped) == {}
              ==> totalRecovered == |fetched| && forall r :: r in fetched ==> Recovered(fates, table, r)
    {
      ghost var first, from, faultless := table, nextId, forall k :: Faultless(fates(k));
      ghost var start, at, all;
      SweepStarts(fates, table, nextId, arrivals, faultless, AllHealthy(fates) && skipped == {}, skipped);
      totalRecovered, fetched, arrived, pages, start, at, all :=
        Pages(maxRows, batchSize, fates, arrivals, faultless, AllHealthy(fates) && skipped == {});
      writes := all;
      SweepEnds(first, start, arrived, from, nextId, at, arrivals, pages, table, faultless, fetched, all);
      GoneIs(fates, AllHealthy(fates) && old(skipped) == {}, skipped, fetched, totalRecovered, table);
    }

    /** The loop of the sweep, page by page. */
    method Pages(maxRows: nat, batchSize: nat, fates: nat -> Fate, arrivals: seq<seq<Row>>, ghost faultless: bool,
                 ghost healthy: bool)
      returns (totalRecovered: nat, ghost fetched: seq<Row>, ghost arrived: seq<Row>, page: nat, ghost start: Table,
               ghost at: nat, ghost all: seq<Table>)
      requires Valid() && (faultless ==> forall k :: Faultless(fates(k))) && (healthy ==> AllHealthy(fates))
      requires OnCourse(table, table, [], nextId, nextId, 0, arrivals, 0, table, faultless, []) == Upheld
      requires Gone(fates, healthy, skipped, [], 0, table) == Upheld && AllKeep(table, table, []) == Upheld
      modifies this
      ensures Valid() && old(skipped) <= skipped && totalRecovered <= maxRows && page <= |arrivals|
      ensures OnCourse(old(table), start, arrived, old(nextId), nextId, at, arrivals, page, table, faultless, fetched)
           == Upheld
      ensures Gone(fates, healthy, skipped, fetched, totalRecovered, table) == Upheld
      ensures AllKeep(old(table), start, all) == Upheld
      ensures totalRecovered < maxRows && batchSize > 0 && (forall k :: !fates(k).slow)
              ==> forall r :: r in start && Eligible(r) && r.id > 0 ==> r in fetched
    {
      ghost var first, from := table, nextId;
      var cursor, batches := 0, 0;
      totalRecovered, fetched, arrived, writes, page := 0, [], [], [], 0;
      start, at, all := table, 0, [];
      while totalRecovered < maxRows
        invariant Valid() && writes == [] && old(skipped) <= skipped && at == cursor && totalRecovered <= maxRows
        invariant OnCourse(first, start, arrived, from, nextId, at, arrivals, page, table, faultless, fetched) == Upheld
        invariant page <= |arrivals| && AllKeep(first, start, all) == Upheld
        invariant Gone(fates, healthy, skipped, fetched, totalRecovered, table) == Upheld
        decreases |arrivals| - page, |EligibleAbove(start, cursor)|
      {
        start, arrived, page := Meanwhile(fates, first, start, arrived, from, at, arrivals, page, faultless, fetched,
                                          totalRecovered, healthy, all);
        var remaining := maxRows - totalRecovered;
        var limit := if batchSize < remaining then batchSize else remaining;
        var rows, recovered, backpressure;
        rows, recovered, batches, backpressure :=
          TakePage(cursor, limit, fates, batches, first, start, arrived, from, arrivals, page, faultless, fetched,
                   totalRecovered, healthy, all);
        at, all, writes := LastId(cursor, rows), all + writes, [];
        fetched := fetched + rows;
        totalRecovered := totalRecovered + recovered;
        if |rows| == 0 || backpressure {
          break;
        }
        cursor := rows[|rows| - 1].id;
      }
    }

    /** One page: fetched, and its tenants recovered, unless there is none. */
    method TakePage(cursor: nat, limit: nat, fates: nat -> Fate, first: nat, ghost was: Table, ghost start: Table,
                    ghost arrived: seq<Row>, ghost from: nat, ghost arrivals: seq<seq<Row>>, ghost page: nat,
                    ghost faultless: bool, ghost fetched: seq<Row>, ghost total: nat, ghost healthy: bool,
                    ghost all: seq<Table>)
      returns (rows: seq<Row>, recovered: nat, batches: nat, backpressure: bool)
      requires Valid() && writes == [] && AllKeep(was, start, all) == Upheld
      requires OnCourse(was, start, arrived, from, nextId, cursor, arrivals, page, table, faultless, fetched) == Upheld
      requires Gone(fates, healthy, skipped, fetched, total, table) == Upheld
      requires (faultless ==> forall k :: Faultless(fates(k))) && (healthy ==> AllHealthy(fates))
      modifies this
      ensures Valid() && old(skipped) <= skipped && recovered <= |rows| <= limit
      ensures OnCourse(was, start, arrived, from, nextId, LastId(cursor, rows), arrivals, page, table, faultless,
                       fetched + rows) == Upheld
      ensures AllKeep(was, start, all + writes) == Upheld
      ensures Gone(fates, healthy, skipped, fetched + rows, total + recovered, table) == Upheld
      ensures rows == [] && limit > 0 ==> forall r :: r in start && Eligible(r) && r.id > 0 ==> r in fetched + rows
      ensures rows != [] ==> |EligibleAbove(start, LastId(cursor, rows))| < |EligibleAbove(start, cursor)|
      ensures backpressure ==> exists k :: fates(k).slow
    {
      rows, recovered, batches, backpressure := FetchPage(table, cursor, limit), 0, first, false;
      if |rows| == 0 {
        NothingAbove(was, start, arrived, from, nextId, arrivals, page, table, faultless, fetched, cursor, limit);
        assert fetched + rows == fetched && all + writes == all;
        return;
      }
      PageIsFine(was, start, arrived, from, nextId, arrivals, page, table, faultless, fetched, cursor, limit, rows);
      ghost var before, id, passed := table, nextId, skipped;
      recovered, batches, backpressure := RecoverPage(rows, fates, batches, start, faultless);
      PageProgress(was, start, arrived, from, id, nextId, arrivals, page, before, table, faultless, fetched, rows,
                   cursor, limit, writes, all);
      GoneMore(fates, healthy, passed, skipped, fetched, rows, total, recovered, before, table);
    }

    /** What arrives before a page. */
    method Meanwhile(ghost fates: nat -> Fate, ghost first: Table, ghost start: Table, ghost arrived: seq<Row>,
                     ghost from: nat, ghost cursor: nat, arrivals: seq<seq<Row>>, page: nat, ghost faultless: bool,
                     ghost fetched: seq<Row>, ghost recovered: nat, ghost healthy: bool, ghost all: seq<Table>)
      returns (ghost start': Table, ghost arrived': seq<Row>, page': nat)
      requires Valid() && page <= |arrivals|
      requires OnCourse(first, start, arrived, from, nextId, cursor, arrivals, page, table, faultless, fetched)
            == Upheld
      modifies this`table, this`nextId
      ensures Valid() && page' <= |arrivals|
      ensures if page < |arrivals| then page' == page + 1 else page' == page && start' == start
      ensures OnCourse(first, start', arrived', from, nextId, cursor, arrivals, page', table, faultless, fetched)
           == Upheld
      ensures AllKeep(first, start, all) == Upheld ==> AllKeep(first, start', all) == Upheld
      ensures Gone(fates, healthy, skipped, fetched, recovered, old(table)) == Upheld
              ==> Gone(fates, healthy, skipped, fetched, recovered, table) == Upheld
    {
      start', arrived', page' := start, arrived, page;
      if page < |arrivals| {
        ghost var was, id := table, nextId;
        var added := Arrive(arrivals[page]);
        ArrivalKeeps(fates, first, start, arrived, from, id, cursor, arrivals, page, was, faultless, fetched, recovered,
                     added, healthy, skipped);
        if AllKeep(first, start, all) == Upheld {
          AllKeepLonger(first, start, added, all);
        }
        start', arrived', page' := start + added, arrived + added, page + 1;
      }
    }
  }

  // -------------------------------------------------- what arrives during a sweep

  /** Rows under ids from `id` on. */
  function Stamped(rows: seq<Row>, id: nat): (out: seq<Row>)
    ensures |out| == |rows|
  {
    if rows == [] then [] else [rows[0].(id := id)] + Stamped(rows[1..], id + 1)
  }

  /** Rows without their ids. */
  function Bare(rows: seq<Row>): seq<Row> { if rows == [] then [] else [rows[0].(id := 0)] + Bare(rows[1..]) }

  function Flat(arrivals: seq<seq<Row>>): seq<Row> {
    if arrivals == [] then [] else Flat(arrivals[..|arrivals| - 1]) + arrivals[|arrivals| - 1]
  }

  lemma {:induction false} StampedAre(rows: seq<Row>, id: nat)
    ensures UniqueIds(Stamped(rows, id)) && forall r :: r in Stamped(rows, id) ==> id <= r.id < id + |rows|
    ensures Bare(Stamped(rows, id)) == Bare(rows)
  {
    if rows != [] {
      StampedAre(rows[1..], id + 1);
      assert Stamped(rows, id)[1..] == Stamped(rows[1..], id + 1);
    }
  }

  lemma {:induction false} BareConcat(a: seq<Row>, b: seq<Row>)
    ensures Bare(a + b) == Bare(a) + Bare(b)
  {
    var all := a + b;
    if a == [] {
      assert all == b;
    } else {
      BareConcat(a[1..], b);
      assert all[0] == a[0] && all[1..] == a[1..] + b;
      var first := [a[0].(id := 0)];
      assert first + (Bare(a[1..]) + Bare(b)) == (first + Bare(a[1..])) + Bare(b);
    }
  }

  /** What the sweep starts from now: the first table and what has arrived, all of it
      under ids that were generated, the cursor among them. */
  ghost function Arrived(first: Table, start: Table, arrived: seq<Row>, from: nat, id: nat, cursor: nat): Verdict {
    if start == first + arrived && (forall r :: r in start ==> r.id < id) && (forall r :: r in arrived ==> r.id >= from)
       && from <= id && (cursor == 0 || cursor < id)
    then Upheld else Violated
  }

  /** What has arrived is what `arrivals` said, under other ids. */
  ghost function SoFar(arrived: seq<Row>, arrivals: seq<seq<Row>>, page: nat): Verdict {
    if page <= |arrivals| && Bare(arrived) == Bare(Flat(arrivals[..page])) then Upheld else Violated
  }

  lemma NoneArrived(table: Table, id: nat, arrivals: seq<seq<Row>>)
    requires forall r :: r in table ==> r.id < id
    ensures Arrived(table, table, [], id, id, 0) == Upheld && SoFar([], arrivals, 0) == Upheld
  {
    assert table + [] == table && arrivals[..0] == [];
  }

  lemma SoFarMore(arrived: seq<Row>, arrivals: seq<seq<Row>>, page: nat, added: seq<Row>)
    requires SoFar(arrived, arrivals, page) == Upheld && page < |arrivals| && Bare(added) == Bare(arrivals[page])
    ensures SoFar(arrived + added, arrivals, page + 1) == Upheld
  {
    BareConcat(arrived, added);
    FlatMore(arrivals, page);
    BareConcat(Flat(arrivals[..page]), arrivals[page]);
  }

  lemma FlatMore(arrivals: seq<seq<Row>>, page: nat)
    requires page < |arrivals|
    ensures Flat(arrivals[..page + 1]) == Flat(arrivals[..page]) + arrivals[page]
  {
    assert arrivals[..page + 1][..page] == arrivals[..page];
  }

  lemma ArrivedMore(first: Table, start: Table, arrived: seq<Row>, from: nat, id: nat, cursor: nat, added: seq<Row>)
    requires Arrived(first, start, arrived, from, id, cursor) == Upheld
    requires forall r :: r in added ==> id <= r.id < id + |added|
    ensures Arrived(first, start + added, arrived + added, from, id + |added|, cursor) == Upheld
  {
    assert (first + arrived) + added == first + (arrived + added);
  }

  /** How far a sweep has got, between two pages. */
  ghost function OnCourse(first: Table, start: Table, arrived: seq<Row>, from: nat, id: nat, cursor: nat,
        arrivals: seq<seq<Row>>, page: nat, table: Table, faultless: bool, fetched: seq<Row>): Verdict {
    if Arrived(first, start, arrived, from, id, cursor) == Upheld && SoFar(arrived, arrivals, page) == Upheld
       && Course(start, table, [], faultless) == Upheld && Progressed(start, table, fetched, cursor) == Upheld
    then Upheld else Violated
  }

  /** Arrivals leave alone what the sweep has got so far. */
  lemma ArrivalKeeps(fates: nat -> Fate, first: Table, start: Table, arrived: seq<Row>, from: nat, id: nat, cursor: nat,
        arrivals: seq<seq<Row>>, page: nat, table: Table, faultless: bool, fetched: seq<Row>, recovered: nat,
        added: seq<Row>, healthy: bool, skipped: set<string>)
    requires OnCourse(first, start, arrived, from, id, cursor, arrivals, page, table, faultless, fetched) == Upheld
    requires page < |arrivals| && added == Stamped(arrivals[page], id)
    ensures OnCourse(first, start + added, arrived + added, from, id + |added|, cursor, arrivals, page + 1,
                     table + added, faultless, fetched) == Upheld
    ensures Gone(fates, healthy, skipped, fetched, recovered, table) == Upheld
            ==> Gone(fates, healthy, skipped, fetched, recovered, table + added) == Upheld
  {
    StampedAre(arrivals[page], id);
    SoFarMore(arrived, arrivals, page, added);
    ArrivedMore(first, start, arrived, from, id, cursor, added);
    ArrivalIsOnCourse(start, table, added, faultless);
    ArrivalIsAhead(start, table, added, id, fetched, cursor);
  }

  lemma ArrivalIsOnCourse(start: Table, table: Table, added: seq<Row>, faultless: bool)
    requires Course(start, table, [], faultless) == Upheld
    ensures Course(start + added, table + added, [], faultless) == Upheld
  {
    ArrivalCounts(start, table, added);
    ArrivalCounts(table, start, added);
  }

  lemma ArrivalIsAhead(start: Table, table: Table, added: seq<Row>, id: nat, fetched: seq<Row>, cursor: nat)
    requires Progressed(start, table, fetched, cursor) == Upheld && (cursor == 0 || cursor < id)
    requires forall r :: r in added ==> r.id >= id
    ensures Progressed(start + added, table + added, fetched, cursor) == Upheld
  {
  }

  lemma ArrivalCounts(a: Table, b: Table, added: seq<Row>)
    ensures KeepsAll(a, b) ==> KeepsAll(a + added, b + added)
  {
    forall p ensures Count(a + added, p) == Count(a, p) + Count(added, p)
             ensures Count(b + added, p) == Count(b, p) + Count(added, p) {
      CountConcat(a, added, p);
      CountConcat(b, added, p);
    }
  }

  ghost function AllKeep(first: Table, start: Table, writes: seq<Table>): Verdict {
    if forall w :: w in writes ==> KeepsAll(first, w) && NoneMade(start, w) then Upheld else Violated
  }

  lemma AllKeepLonger(first: Table, start: Table, added: seq<Row>, writes: seq<Table>)
    requires AllKeep(first, start, writes) == Upheld
    ensures AllKeep(first, start + added, writes) == Upheld
  {
  }

  lemma AllKeepMore(first: Table, arrived: seq<Row>, start: Table, all: seq<Table>, writes: seq<Table>)
    requires start == first + arrived && AllKeep(first, start, all) == Upheld
    requires forall w :: w in writes ==> KeepsAll(start, w) && NoneMade(start, w)
    ensures AllKeep(first, start, all + writes) == Upheld
  {
    forall p ensures Count(first + arrived, p) >= Count(first, p) {
      CountConcat(first, arrived, p);
    }
    forall w | w in writes ensures KeepsAll(first, w) {
      KeepsAllTwice(first, start, w);
    }
  }

  /** Nothing goes wrong, and the clusterer has a template for everything. */
  ghost predicate Healthy(fate: Fate) {
    Faultless(fate) && !fate.slow && forall r :: fate.template(r) != UNCLUSTERED
  }

  ghost predicate AllHealthy(fates: nat -> Fate) { forall k :: Healthy(fates(k)) }

  lemma {:induction false} AllRecoverable(rows: seq<Row>, template: Row -> string)
    ensures (forall r :: template(r) != UNCLUSTERED) ==> Recoverable(rows, template) == rows
  {
    if rows != [] {
      AllRecoverable(rows[1..], template);
    }
  }

  /** Of the rows of a table only these may go, and none becomes eligible. */
  ghost predicate OnlyThese(before: Table, after: Table, rows: seq<Row>) {
    && (forall r :: r in before && r !in rows ==> r in after)
    && (forall r :: r in after && r.template == UNCLUSTERED ==> r in before)
  }

  lemma OnlyTheseMore(a: Table, b: Table, c: Table, some: seq<Row>, rows: seq<Row>)
    requires OnlyThese(a, b, rows) && Touched(b, c, some) == Upheld && forall r :: r in some ==> r in rows
    ensures OnlyThese(a, c, rows)
    ensures forall r :: r in b && r !in some ==> r in c
    ensures forall r :: r !in b && Eligible(r) ==> r !in c
  {
  }

  /** A row is gone, and one with the template that the clusterer gave it stands in its
      place. */
  ghost predicate Recovered(fates: nat -> Fate, table: Table, r: Row) {
    r !in table && exists k: nat :: fates(k).template(r) != UNCLUSTERED && PutIn(table, r, fates(k).template(r))
  }

  lemma RecoveredStays(fates: nat -> Fate, was: Table, table: Table, rows: seq<Row>, r: Row)
    requires Recovered(fates, was, r) && Touched(was, table, rows) == Upheld && Eligible(r)
    requires forall x :: x in rows ==> Eligible(x)
    ensures Recovered(fates, table, r)
  {
    var k: nat :| fates(k).template(r) != UNCLUSTERED && PutIn(was, r, fates(k).template(r));
    var q :| q in was && IsNewOf(q, r, fates(k).template(r));
    assert q in table;
  }

  /** How far a page has got: what is recovered, and that the rows of the other tenants
      are still there. */
  ghost function PageOk(rows: seq<Row>, done: set<string>, recovered: nat, before: Table, table: Table): Verdict {
    if recovered + |Others(rows, done)| <= |rows| && (forall r :: r in Others(rows, done) ==> r in table)
       && OnlyThese(before, table, rows) then Upheld else Violated
  }

  /** The same when nothing goes wrong: every row of the tenants gone through is gone. */
  ghost function Settled(fates: nat -> Fate, rows: seq<Row>, done: set<string>, order: seq<string>, recovered: nat,
        table: Table): Verdict
  {
    if recovered + |Others(rows, done)| == |rows|
       && forall r :: r in rows ==> if r.tenant in done then Recovered(fates, table, r) else r.tenant in order
    then Upheld else Violated
  }

  lemma PageStarts(fates: nat -> Fate, rows: seq<Row>, order: seq<string>, table: Table)
    requires forall r :: r in rows ==> r in table && r.tenant in order
    ensures PageOk(rows, {}, 0, table, table) == Upheld && Settled(fates, rows, {}, order, 0, table) == Upheld
  {
    OthersOfNone(rows);
  }

  /** The rows of the next tenant; and passing it over. */
  lemma TenantRows(rows: seq<Row>, done: set<string>, tenant: string, recovered: nat, before: Table, table: Table)
    requires UniqueIds(rows) && tenant !in done && PageOk(rows, done, recovered, before, table) == Upheld
    ensures PageOf(table, tenant, OfTenant(rows, tenant))
    ensures PageOk(rows, done + {tenant}, recovered, before, table) == Upheld
  {
    OthersSplit(rows, done, tenant);
    OfTenantIs(rows, tenant);
    OfTenantIsUnique(rows, tenant);
  }

  lemma SettledSteps(fates: nat -> Fate, k: nat, rows: seq<Row>, done: set<string>, tenant: string,
        tenantRows: seq<Row>, order: seq<string>, recovered: nat, was: Table, table: Table)
    requires order != [] && order[0] == tenant && Settled(fates, rows, done, order, recovered, was) == Upheld
    requires Touched(was, table, tenantRows) == Upheld && tenant !in done && tenantRows == OfTenant(rows, tenant)
    requires forall r :: r in tenantRows ==> r !in table && PutIn(table, r, fates(k).template(r))
    requires Healthy(fates(k)) && forall r :: r in rows ==> Eligible(r)
    ensures Settled(fates, rows, done + {tenant}, order[1..], recovered + |tenantRows|, table) == Upheld
  {
    OthersSplit(rows, done, tenant);
    OfTenantIs(rows, tenant);
    assert order == [tenant] + order[1..];
    forall r | r in rows && r.tenant in done ensures Recovered(fates, table, r) {
      RecoveredStays(fates, was, table, tenantRows, r);
    }
  }

  lemma PageSteps(fates: nat -> Fate, k: nat, rows: seq<Row>, done: set<string>, tenant: string,
        tenantRows: seq<Row>, order: seq<string>, recovered: nat, before: Table, was: Table, table: Table, n: int)
    requires PageOk(rows, done, recovered, before, was) == Upheld && Touched(was, table, tenantRows) == Upheld
    requires tenant !in done && tenantRows == OfTenant(rows, tenant) && n <= |tenantRows|
    requires forall r :: r in rows ==> Eligible(r)
    ensures OnlyThese(before, table, rows)
    ensures n >= 0 ==> PageOk(rows, done + {tenant}, recovered + n, before, table) == Upheld
    ensures order != [] && order[0] == tenant && Settled(fates, rows, done, order, recovered, was) == Upheld
            && n == |tenantRows| && Healthy(fates(k))
            && (forall r :: r in tenantRows ==> r !in table && PutIn(table, r, fates(k).template(r)))
            ==> Settled(fates, rows, done + {tenant}, order[1..], recovered + n, table) == Upheld
  {
    OthersSplit(rows, done, tenant);
    OfTenantIs(rows, tenant);
    OnlyTheseMore(before, was, table, tenantRows, rows);
    if order != [] && order[0] == tenant && Settled(fates, rows, done, order, recovered, was) == Upheld
       && n == |tenantRows| && Healthy(fates(k))
       && (forall r :: r in tenantRows ==> r !in table && PutIn(table, r, fates(k).template(r))) {
      SettledSteps(fates, k, rows, done, tenant, tenantRows, order, recovered, was, table);
    }
  }

  lemma PageEnds(fates: nat -> Fate, rows: seq<Row>, done: set<string>, recovered: nat, before: Table, table: Table)
    ensures PageOk(rows, done, recovered, before, table) == Upheld
            ==> Touched(before, table, rows) == Upheld && recovered <= |rows|
    ensures Settled(fates, rows, done, [], recovered, table) == Upheld
            ==> recovered == |rows| && forall r :: r in rows ==> Recovered(fates, table, r)
  {
    NoOthers(rows, done);
  }

  lemma {:induction false} NoOthers(rows: seq<Row>, done: set<string>)
    ensures (forall r :: r in rows ==> r.tenant in done) ==> Others(rows, done) == []
  {
    if rows != [] {
      NoOthers(rows[..|rows| - 1], done);
      assert rows == rows[..|rows| - 1] + [rows[|rows| - 1]];
    }
  }

  /** What was fetched, by rising id; every eligible row is fetched or still there above
      the cursor. */
  ghost predicate Fetched(start: Table, fetched: seq<Row>) {
    Rising(0, fetched) && forall r :: r in fetched ==> r in start && Eligible(r)
  }

  ghost predicate Behind(start: Table, table: Table, fetched: seq<Row>, cursor: nat) {
    forall r :: r in start && Eligible(r) && r.id > 0 ==> if r.id <= cursor then r in fetched else r in table
  }

  ghost function Progressed(start: Table, table: Table, fetched: seq<Row>, cursor: nat): Verdict {
    if Fetched(start, fetched) && cursor == LastId(0, fetched) && Behind(start, table, fetched, cursor)
        then Upheld else Violated
  }

  /** When nothing goes wrong, all that was fetched is recovered. */
  ghost function Gone(fates: nat -> Fate, healthy: bool, skipped: set<string>, fetched: seq<Row>, recovered: nat,
        table: Table): Verdict
  {
    if healthy ==> skipped == {} && recovered == |fetched| && forall r :: r in fetched ==> Recovered(fates, table, r)
    then Upheld else Violated
  }

  lemma SweepStarts(fates: nat -> Fate, table: Table, id: nat, arrivals: seq<seq<Row>>, faultless: bool, healthy: bool,
        skipped: set<string>)
    requires forall r :: r in table ==> r.id < id
    ensures OnCourse(table, table, [], id, id, 0, arrivals, 0, table, faultless, []) == Upheld
    ensures (healthy ==> skipped == {}) ==> Gone(fates, healthy, skipped, [], 0, table) == Upheld
    ensures AllKeep(table, table, []) == Upheld
  {
    NoneArrived(table, id, arrivals);
  }

  lemma SweepEnds(first: Table, start: Table, arrived: seq<Row>, from: nat, id: nat, cursor: nat,
        arrivals: seq<seq<Row>>, page: nat, table: Table, faultless: bool, fetched: seq<Row>, all: seq<Table>)
    requires OnCourse(first, start, arrived, from, id, cursor, arrivals, page, table, faultless, fetched) == Upheld
    requires AllKeep(first, start, all) == Upheld
    ensures page <= |arrivals| && Bare(arrived) == Bare(Flat(arrivals[..page])) && start == first + arrived
    ensures forall r :: r in arrived ==> r.id >= from
    ensures (forall w :: w in all ==> KeepsAll(first, w)) && KeepsAll(start, table)
            && (faultless ==> KeepsAll(table, start)) && NoneMade(start, table)
            && forall w :: w in all ==> NoneMade(start, w)
    ensures Fetched(start, fetched)
  {
  }

  lemma GoneIs(fates: nat -> Fate, healthy: bool, skipped: set<string>, fetched: seq<Row>, n: nat, table: Table)
    requires Gone(fates, healthy, skipped, fetched, n, table) == Upheld
    ensures healthy ==> n == |fetched| && forall r :: r in fetched ==> Recovered(fates, table, r)
  {
  }

  lemma GoneMore(fates: nat -> Fate, healthy: bool, passed: set<string>, skipped: set<string>, fetched: seq<Row>,
        rows: seq<Row>, n: nat, recovered: nat, was: Table, table: Table)
    requires Touched(was, table, rows) == Upheld && (forall r :: r in fetched || r in rows ==> Eligible(r))
    requires Gone(fates, healthy, passed, fetched, n, was) == Upheld
    requires healthy && passed == {}
             ==> recovered == |rows| && skipped == {} && forall r :: r in rows ==> Recovered(fates, table, r)
    ensures Gone(fates, healthy, skipped, fetched + rows, n + recovered, table) == Upheld
  {
  }

  lemma NothingAbove(first: Table, start: Table, arrived: seq<Row>, from: nat, id: nat, arrivals: seq<seq<Row>>,
        page: nat, table: Table, faultless: bool, fetched: seq<Row>, cursor: nat, limit: nat)
    requires OnCourse(first, start, arrived, from, id, cursor, arrivals, page, table, faultless, fetched) == Upheld
    requires FetchPage(table, cursor, limit) == []
    ensures limit > 0 ==> forall r :: r in start && Eligible(r) && r.id > 0 ==> r in fetched
  {
  }

  /** One page further. */
  lemma PageProgress(first: Table, start: Table, arrived: seq<Row>, from: nat, id: nat, id': nat,
        arrivals: seq<seq<Row>>, page: nat, was: Table, table: Table, faultless: bool, fetched: seq<Row>,
        rows: seq<Row>, cursor: nat, limit: nat, writes: seq<Table>, all: seq<Table>)
    requires OnCourse(first, start, arrived, from, id, cursor, arrivals, page, was, faultless, fetched) == Upheld
    requires Course(start, table, writes, faultless) == Upheld && id <= id' && AllKeep(first, start, all) == Upheld
    requires Touched(was, table, rows) == Upheld && UniqueIds(was) && rows == FetchPage(was, cursor, limit) != []
    ensures OnCourse(first, start, arrived, from, id', rows[|rows| - 1].id, arrivals, page, table, faultless,
                     fetched + rows) == Upheld
    ensures AllKeep(first, start, all + writes) == Upheld && forall r :: r in fetched ==> Eligible(r)
  {
    var last := rows[|rows| - 1];
    assert last in rows && last in was && last in start;
    PageMoves(start, was, table, fetched, rows, cursor, limit, last.id);
    AllKeepMore(first, arrived, start, all, writes);
  }

  lemma PageMoves(start: Table, was: Table, table: Table, fetched: seq<Row>, rows: seq<Row>, cursor: nat, limit: nat,
        last: nat)
    requires Progressed(start, was, fetched, cursor) == Upheld && Touched(was, table, rows) == Upheld && UniqueIds(was)
    requires rows == FetchPage(was, cursor, limit) != [] && last == rows[|rows| - 1].id
             && forall r :: r in rows ==> r in start
    ensures Progressed(start, table, fetched + rows, last) == Upheld
  {
    PageIsRising(was, cursor, limit);
    RisingIsUnique(cursor, rows);
    RisingConcat(0, fetched, rows);
    PageIsComplete(was, cursor, limit);
    StaysBehind(start, was, table, fetched, rows, cursor, last);
  }

  lemma StaysBehind(start: Table, was: Table, table: Table, fetched: seq<Row>, rows: seq<Row>, cursor: nat, last: nat)
    requires Behind(start, was, fetched, cursor) && Touched(was, table, rows) == Upheld && cursor <= last
    requires forall r :: r in was && Eligible(r) && cursor < r.id <= last ==> r in rows
    requires forall r :: r in rows ==> r.id <= last
    ensures Behind(start, table, fetched + rows, last)
  {
  }

  /** A page leaves out no eligible row up to its last. */
  lemma {:induction false} PageIsComplete(table: Table, cursor: nat, limit: nat)
    requires UniqueIds(table)
    ensures forall r :: r in table && Eligible(r) && cursor < r.id <= LastId(cursor, FetchPage(table, cursor, limit))
              ==> r in FetchPage(table, cursor, limit)
    decreases limit
  {
    if limit > 0 && NextRow(table, cursor).Some? {
      var first := NextRow(table, cursor).value;
      PageIsComplete(table, first.id, limit - 1);
      var rest := FetchPage(table, first.id, limit - 1);
      assert FetchPage(table, cursor, limit) == [first] + rest;
      assert LastId(cursor, [first] + rest) == LastId(first.id, rest);
      forall r | r in table && r.id == first.id ensures r == first {
        IdTells(table, r, first);
      }
    }
  }

  /** Rows of one tenant, as a page groups them. */
  predicate PageOf(table: Table, tenant: string, rows: seq<Row>) {
    UniqueIds(rows) && forall r :: r in rows ==> r in table && r.tenant == tenant
  }

  predicate Distinct(order: seq<string>) { order == [] || (order[0] !in order[1..] && Distinct(order[1..])) }

  lemma {:induction false} DistinctSnoc(order: seq<string>, t: string)
    requires Distinct(order) && t !in order
    ensures Distinct(order + [t])
  {
    if order != [] {
      assert (order + [t])[1..] == order[1..] + [t];
      DistinctSnoc(order[1..], t);
    }
  }

  function OfTenant(rows: seq<Row>, tenant: string): seq<Row> {
    if rows == [] then []
    else OfTenant(rows[..|rows| - 1], tenant) + if rows[|rows| - 1].tenant == tenant then [rows[|rows| - 1]] else []
  }

  lemma PrefixSnoc(rows: seq<Row>, i: nat)
    requires i < |rows|
    ensures rows[..i + 1] == rows[..i] + [rows[i]]
  {
  }

  function Names(order: seq<string>): set<string> { set t | t in order }

  lemma NamesSnoc(order: seq<string>, name: string)
    ensures Names(order + [name]) == Names(order) + {name}
  {
  }

  lemma {:induction false} OwnTenantHas(rows: seq<Row>, r: Row)
    requires r in rows
    ensures OfTenant(rows, r.tenant) != []
  {
    var last := |rows| - 1;
    if rows[last] != r {
      assert rows == rows[..last] + [rows[last]];
      OwnTenantHas(rows[..last], r);
    }
  }

  function GroupOf(groups: map<string, seq<Row>>, tenant: string): seq<Row> {
    if tenant in groups then groups[tenant] else []
  }

  ghost predicate Grouped(rows: seq<Row>, groups: map<string, seq<Row>>) {
    forall t :: OfTenant(rows, t) == GroupOf(groups, t)
  }

  lemma GroupedSnoc(rows: seq<Row>, row: Row, groups: map<string, seq<Row>>)
    requires Grouped(rows, groups)
    ensures Grouped(rows + [row], groups[row.tenant := GroupOf(groups, row.tenant) + [row]])
  {
    assert (rows + [row])[..|rows|] == rows;
    forall t ensures OfTenant(rows + [row], t)
        == GroupOf(groups[row.tenant := GroupOf(groups, row.tenant) + [row]], t) {
      assert OfTenant(rows, t) + [] == OfTenant(rows, t);
    }
  }

  /** The rows of the tenants that are not done yet. */
  function Others(rows: seq<Row>, done: set<string>): seq<Row> {
    if rows == [] then []
    else Others(rows[..|rows| - 1], done) + if rows[|rows| - 1].tenant in done then [] else [rows[|rows| - 1]]
  }

  lemma {:induction false} OthersOfNone(rows: seq<Row>)
    ensures Others(rows, {}) == rows
  {
    if rows != [] {
      OthersOfNone(rows[..|rows| - 1]);
    }
  }

  lemma {:induction false} OthersSplit(rows: seq<Row>, done: set<string>, tenant: string)
    requires tenant !in done
    ensures |Others(rows, done)| == |Others(rows, done + {tenant})| + |OfTenant(rows, tenant)|
    ensures forall r :: r in Others(rows, done) <==> r in Others(rows, done + {tenant}) || r in OfTenant(rows, tenant)
    ensures forall r :: r in Others(rows, done + {tenant}) ==> r.tenant != tenant
  {
    if rows != [] {
      OthersSplit(rows[..|rows| - 1], done, tenant);
    }
  }

  lemma {:induction false} OfTenantIs(rows: seq<Row>, tenant: string)
    ensures forall r :: r in OfTenant(rows, tenant) <==> r in rows && r.tenant == tenant
  {
    if rows != [] {
      OfTenantIs(rows[..|rows| - 1], tenant);
      assert rows == rows[..|rows| - 1] + [rows[|rows| - 1]];
    }
  }

  lemma {:induction false} OfTenantIsUnique(rows: seq<Row>, tenant: string)
    requires UniqueIds(rows)
    ensures UniqueIds(OfTenant(rows, tenant))
  {
    if rows != [] {
      var most, last := rows[..|rows| - 1], rows[|rows| - 1];
      assert rows == most + [last];
      UniqueSplit(most, [last]);
      OfTenantIs(most, tenant);
      OfTenantIsUnique(most, tenant);
      if last.tenant == tenant {
        assert last.id in IdsOf([last]);
        UniqueConcat(OfTenant(most, tenant), [last]);
      } else {
        assert OfTenant(rows, tenant) == OfTenant(most, tenant);
      }
    }
  }

  lemma {:induction false} UniqueSplit(a: Table, b: Table)
    requires UniqueIds(a + b)
    decreases |a|
    ensures UniqueIds(a) && UniqueIds(b) && IdsOf(a) !! IdsOf(b)
  {
    if a == [] {
      assert a + b == b;
    } else {
      assert (a + b)[1..] == a[1..] + b;
      UniqueSplit(a[1..], b);
      assert a == [a[0]] + a[1..];
    }
  }

  predicate Faultless(fate: Fate) { fate.insert.Done? && fate.delete.Done? }

  /** No row without a template is made. */
  ghost predicate NoneMade(start: Table, table: Table) {
    forall r :: r in table && r.template == UNCLUSTERED ==> r in start
  }

  /** A table in the course of a sweep, and all tables it wrote. */
  ghost predicate Fine(start: Table, table: Table, writes: seq<Table>, faultless: bool) {
    && KeepsAll(start, table) && (forall w :: w in writes ==> KeepsAll(start, w))
    && (forall r :: r in table && r.template == UNCLUSTERED ==> r in start)
    && (forall w :: w in writes ==> NoneMade(start, w))
    && (faultless ==> KeepsAll(table, start))
  }

  /** The same as values: what the methods carry along. */
  ghost function Course(start: Table, table: Table, writes: seq<Table>, faultless: bool): Verdict {
    if Fine(start, table, writes, faultless) then Upheld else Violated
  }

  ghost function Touched(before: Table, after: Table, rows: seq<Row>): Verdict {
    if OnlyThese(before, after, rows) then Upheld else Violated
  }

  lemma BatchKeepsFine(start: Table, table: Table, writes: seq<Table>, faultless: bool, tenant: string,
        rows: seq<Row>, fate: Fate, id: nat)
    requires Course(start, table, writes, faultless) == Upheld && (faultless ==> Faultless(fate))
    requires UniqueIds(table) && (forall r :: r in table ==> r.id < id) && PageOf(table, tenant, rows)
    ensures Course(start, AfterBatch(table, tenant, rows, fate, id),
            writes + BatchWrites(table, tenant, rows, fate, id), faultless) == Upheld
    ensures Touched(table, AfterBatch(table, tenant, rows, fate, id), rows) == Upheld
  {
    var after := AfterBatch(table, tenant, rows, fate, id);
    BatchConserves(table, tenant, rows, fate, id);
    BatchRows(table, tenant, rows, fate, id);
    WritesMakeNone(table, tenant, rows, fate, id);
    forall w | w in BatchWrites(table, tenant, rows, fate, id) ensures KeepsAll(start, w) {
      KeepsAllTwice(start, table, w);
    }
    if faultless {
      KeepsAllTwice(after, table, start);
    }
  }

  lemma KeepsAllTwice(a: Table, b: Table, c: Table)
    requires KeepsAll(a, b) && KeepsAll(b, c)
    ensures KeepsAll(a, c)
  {
    forall p ensures Count(c, p) >= Count(a, p) {
      assert Count(b, p) >= Count(a, p);
    }
  }

  function EligibleAbove(table: Table, cursor: nat): set<nat> {
    set r | r in table && Eligible(r) && r.id > cursor :: r.id
  }

  lemma {:induction false} RisingIsUnique(cursor: nat, rows: seq<Row>)
    requires Rising(cursor, rows)
    ensures UniqueIds(rows) && forall r :: r in rows ==> cursor < r.id <= LastId(cursor, rows)
    decreases |rows|
  {
    if rows != [] {
      RisingIsUnique(rows[0].id, rows[1..]);
      assert rows == [rows[0]] + rows[1..];
    }
  }

  lemma {:induction false} RisingConcat(cursor: nat, a: seq<Row>, b: seq<Row>)
    requires Rising(cursor, a) && Rising(LastId(cursor, a), b)
    decreases |a|
    ensures Rising(cursor, a + b) && LastId(cursor, a + b) == LastId(LastId(cursor, a), b)
  {
    if a == [] {
      assert a + b == b;
    } else {
      assert (a + b)[1..] == a[1..] + b;
      RisingConcat(a[0].id, a[1..], b);
    }
  }

  /** A page has rows of the table and the start, and leaves fewer to fetch. */
  lemma PageIsFine(first: Table, start: Table, arrived: seq<Row>, from: nat, id: nat, arrivals: seq<seq<Row>>,
        page: nat, table: Table, faultless: bool, fetched: seq<Row>, cursor: nat, limit: nat, rows: seq<Row>)
    requires OnCourse(first, start, arrived, from, id, cursor, arrivals, page, table, faultless, fetched) == Upheld
    requires rows == FetchPage(table, cursor, limit) != []
    ensures Course(start, table, [], faultless) == Upheld
    ensures UniqueIds(rows) && forall r :: r in rows ==> r in table && r in start && Eligible(r)
    ensures |EligibleAbove(start, rows[|rows| - 1].id)| < |EligibleAbove(start, cursor)|
  {
    var last := rows[|rows| - 1];
    PageIsRising(table, cursor, limit);
    RisingIsUnique(cursor, rows);
    assert last in rows && last in start && last.id in EligibleAbove(start, cursor);
    FewerLeft(EligibleAbove(start, last.id), EligibleAbove(start, cursor), last.id);
  }

  lemma FewerLeft(a: set<nat>, b: set<nat>, x: nat)
    requires a <= b && x in b && x !in a
    ensures |a| < |b|
  {
    SubsetSize(a, b - {x});
  }

  lemma SubsetSize(a: set<nat>, b: set<nat>)
    requires a <= b
    ensures |a| <= |b|
  {
    assert b == a + (b - a);
  }

  /** The table after each write of a batch. */
  function BatchWrites(table: Table, tenant: string, rows: seq<Row>, fate: Fate, id: nat): seq<Table> {
    var recoverable := Recoverable(rows, fate.template);
    if fate.slow || recoverable == [] then [] else Writes(table, tenant, recoverable, fate, id)
  }

  function Writes(table: Table, tenant: string, recoverable: seq<Row>, fate: Fate, id: nat): (w: seq<Table>)
    ensures w != []
  {
    var inserted := Inserted(table, NewRows(recoverable, fate.template, id), fate.insert, id);
    if fate.insert.Fails? then [inserted] else [inserted, Deleted(inserted, tenant, recoverable, fate.delete)]
  }

  function AfterBatch(table: Table, tenant: string, rows: seq<Row>, fate: Fate, id: nat): Table {
    var writes := BatchWrites(table, tenant, rows, fate, id);
    if writes == [] then table else writes[|writes| - 1]
  }

  /** No payload is lost by a batch, wherever a crash falls between or within its
      writes; and when both succeed no payload is there more often either. */
  lemma BatchConserves(table: Table, tenant: string, rows: seq<Row>, fate: Fate, id: nat)
    requires UniqueIds(table) && (forall r :: r in table ==> r.id < id) && PageOf(table, tenant, rows)
    ensures forall w :: w in BatchWrites(table, tenant, rows, fate, id) ==> KeepsAll(table, w)
    ensures fate.insert.Done? && fate.delete.Done? ==> KeepsAll(AfterBatch(table, tenant, rows, fate, id), table)
  {
    RecoverableIsUnique(rows, fate.template);
    WritesConserve(table, tenant, Recoverable(rows, fate.template), fate, id);
  }

  lemma WritesConserve(table: Table, tenant: string, rows: seq<Row>, fate: Fate, id: nat)
    requires UniqueIds(table) && (forall r :: r in table ==> r.id < id) && PageOf(table, tenant, rows)
    requires forall r :: r in rows ==> fate.template(r) != UNCLUSTERED
    ensures var inserted := Inserted(table, NewRows(rows, fate.template, id), fate.insert, id);
            var deleted := Deleted(inserted, tenant, rows, fate.delete);
            && KeepsAll(table, inserted)
            && (fate.insert.Done? ==> KeepsAll(table, deleted) && (fate.delete.Done? ==> KeepsAll(deleted, table)))
  {
    InsertIsFine(table, rows, fate.template, id, fate.insert);
    InsertCounts(table, rows, fate.template, id, fate.insert);
    if fate.insert.Done? {
      DeleteKeepsAll(table, Inserted(table, NewRows(rows, fate.template, id), fate.insert, id), tenant, rows,
                     fate.delete);
    }
  }

  lemma WritesMakeNone(table: Table, tenant: string, rows: seq<Row>, fate: Fate, id: nat)
    requires UniqueIds(table) && (forall r :: r in table ==> r.id < id) && PageOf(table, tenant, rows)
    ensures forall w :: w in BatchWrites(table, tenant, rows, fate, id) ==> NoneMade(table, w)
  {
    var recoverable := Recoverable(rows, fate.template);
    var inserted := Inserted(table, NewRows(recoverable, fate.template, id), fate.insert, id);
    InsertIsFine(table, recoverable, fate.template, id, fate.insert);
    DeleteIsFine(inserted, tenant, recoverable, fate.delete);
  }

  /** What a batch does to rows: it makes none eligible, and leaves all others alone. */
  lemma BatchRows(table: Table, tenant: string, rows: seq<Row>, fate: Fate, id: nat)
    requires UniqueIds(table) && (forall r :: r in table ==> r.id < id) && PageOf(table, tenant, rows)
    ensures var after := AfterBatch(table, tenant, rows, fate, id);
            && (forall r :: r in after && r.template == UNCLUSTERED ==> r in table)
            && (forall r :: r in table && r !in rows ==> r in after)
            && (!fate.slow && fate.insert.Done? && fate.delete.Done?
                ==> forall r :: r in Recoverable(rows, fate.template) ==> r !in after)
  {
    var recoverable := Recoverable(rows, fate.template);
    InsertIsFine(table, recoverable, fate.template, id, fate.insert);
    var inserted := Inserted(table, NewRows(recoverable, fate.template, id), fate.insert, id);
    DeleteIsFine(inserted, tenant, recoverable, fate.delete);
    assert forall r :: r in recoverable ==> r.id in IdsOf(recoverable) && r.tenant == tenant;
  }

  /** And it puts a row with a template in the place of each that it recovers. */
  lemma BatchPutsIn(table: Table, tenant: string, rows: seq<Row>, fate: Fate, id: nat)
    requires UniqueIds(table) && (forall r :: r in table ==> r.id < id) && PageOf(table, tenant, rows)
    requires !fate.slow && fate.insert.Done?
    ensures forall r :: r in Recoverable(rows, fate.template)
              ==> PutIn(AfterBatch(table, tenant, rows, fate, id), r, fate.template(r))
  {
    var recoverable := Recoverable(rows, fate.template);
    var newRows := NewRows(recoverable, fate.template, id);
    var inserted := Inserted(table, newRows, fate.insert, id);
    InsertIsFine(table, recoverable, fate.template, id, fate.insert);
    NewRowsAre(recoverable, fate.template, id, ("", ""));
    DeleteSpares(inserted, tenant, recoverable, fate.delete, newRows, id);
    if recoverable != [] {
      NewRowsArePutIn(AfterBatch(table, tenant, rows, fate, id), recoverable, fate.template, id);
    }
  }

  /** Rows of other ids are not deleted. */
  lemma DeleteSpares(table: Table, tenant: string, rows: seq<Row>, effect: Effect, others: seq<Row>, id: nat)
    requires UniqueIds(table) && (forall r :: r in rows ==> r in table && r.id < id)
    requires forall q :: q in others ==> q in table && q.id >= id
    ensures forall q :: q in others ==> q in Deleted(table, tenant, rows, effect)
  {
    DeleteIsFine(table, tenant, rows, effect);
  }

  lemma {:induction false} IdTells(table: Table, a: Row, b: Row)
    requires UniqueIds(table) && a in table && b in table && a.id == b.id
    ensures a == b
  {
    var rest := table[1..];
    assert table == [table[0]] + rest;
    assert forall x :: x in rest ==> x.id in IdsOf(rest);
    if a in rest && b in rest {
      IdTells(rest, a, b);
    }
  }

  lemma DeleteIsFine(table: Table, tenant: string, rows: seq<Row>, effect: Effect)
    requires UniqueIds(table) && forall r :: r in rows ==> r in table
    ensures var after := Deleted(table, tenant, rows, effect);
            && UniqueIds(after) && (forall r :: r in after ==> r in table)
            && (forall r :: r in table && r !in rows ==> r in after)
            && (effect.Done? ==> forall r :: r in after ==> r.tenant != tenant || r.id !in IdsOf(rows))
  {
    forall r, q | r in table && q in rows && r.id == q.id ensures r == q {
      IdTells(table, r, q);
    }
    WithoutIs(table, tenant, if effect.Done? then IdsOf(rows) else IdsOf(rows) * effect.which);
  }

  lemma WrittenIs(rows: seq<Row>, effect: Effect, id: nat)
    requires UniqueIds(rows)
    ensures UniqueIds(Written(rows, effect, id)) && forall r :: r in Written(rows, effect, id) ==> r in rows
  {
    if effect.Fails? {
      OnlyIs(rows, set k | k in effect.which :: id + k, ("", ""));
    }
  }

  /** The insert keeps ids unique and adds nothing eligible. */
  lemma InsertIsFine(before: Table, rows: seq<Row>, template: Row -> string, id: nat, effect: Effect)
    requires UniqueIds(before) && (forall r :: r in before ==> r.id < id)
    requires forall r :: r in rows ==> template(r) != UNCLUSTERED
    ensures var table := Inserted(before, NewRows(rows, template, id), effect, id);
            && UniqueIds(table)
            && (forall r :: r in table ==> r.id < id + |rows|)
            && (forall r :: r in table && r.template == UNCLUSTERED ==> r in before)
            && (forall r :: r in before ==> r in table)
  {
    var newRows := NewRows(rows, template, id);
    NewRowsAre(rows, template, id, ("", ""));
    WrittenIs(newRows, effect, id);
    UniqueConcat(before, Written(newRows, effect, id));
  }

  /** The two writes of a batch keep ids unique and below the next. */
  lemma ReplaceIsFine(before: Table, tenant: string, rows: seq<Row>, fate: Fate, id: nat)
    requires UniqueIds(before) && (forall r :: r in before ==> r.id < id)
    requires forall r :: r in rows ==> fate.template(r) != UNCLUSTERED && r in before
    ensures var table := Inserted(before, NewRows(rows, fate.template, id), fate.insert, id);
            && UniqueIds(table) && (forall r :: r in table ==> r.id < id + |rows|)
            && UniqueIds(Deleted(table, tenant, rows, fate.delete))
            && forall r :: r in Deleted(table, tenant, rows, fate.delete) ==> r.id < id + |rows|
  {
    var table := Inserted(before, NewRows(rows, fate.template, id), fate.insert, id);
    InsertIsFine(before, rows, fate.template, id, fate.insert);
    DeleteIsFine(table, tenant, rows, fate.delete);
  }

  lemma Appended(writes: seq<Table>, a: Table, b: Table)
    ensures (writes + [a]) + [b] == writes + [a, b]
  {
  }

  /** The insert adds each payload once. */
  lemma InsertCounts(before: Table, rows: seq<Row>, template: Row -> string, id: nat, effect: Effect)
    requires forall r :: r in rows ==> template(r) != UNCLUSTERED
    ensures var table := Inserted(before, NewRows(rows, template, id), effect, id);
            && KeepsAll(before, table)
            && (effect.Done? ==> forall p :: Count(table, p) == Count(before, p) + Count(rows, p))
  {
    forall p: (string, string) ensures Count(NewRows(rows, template, id), p) == Count(rows, p) {
      NewRowsAre(rows, template, id, p);
    }
    InsertKeepsAll(before, NewRows(rows, template, id), effect, id);
  }

  /** The counters after one more delete of a tenant. */
  function FailuresAfter(failures: map<string, nat>, tenant: string, ok: bool): map<string, nat> {
    var n := Failures(failures, tenant) + 1;
    if ok || n >= DELETE_FAILURE_THRESHOLD then failures - {tenant} else failures[tenant := n]
  }

  function SkippedAfter(failures: map<string, nat>, skipped: set<string>, tenant: string, ok: bool): set<string> {
    if !ok && Failures(failures, tenant) + 1 >= DELETE_FAILURE_THRESHOLD then skipped + {tenant} else skipped
  }

  lemma OneMoreOutcome(before: seq<bool>, ok: bool)
    ensures Trailing(before + [ok]) == if ok then 0 else 1 + Trailing(before)
  {
    assert (before + [ok])[..|before|] == before;
  }

  lemma CountersStep(failures: map<string, nat>, skipped: set<string>, outcomes: map<string, seq<bool>>,
        tenant: string, ok: bool)
    requires Judged(failures, skipped, outcomes) == Upheld && tenant !in skipped
    ensures Judged(FailuresAfter(failures, tenant, ok), SkippedAfter(failures, skipped, tenant, ok),
                   outcomes[tenant := Outcomes(outcomes, tenant) + [ok]]) == Upheld
  {
    var more := outcomes[tenant := Outcomes(outcomes, tenant) + [ok]];
    var f, k := FailuresAfter(failures, tenant, ok), SkippedAfter(failures, skipped, tenant, ok);
    OneMoreOutcome(Outcomes(outcomes, tenant), ok);
    forall t ensures CounterOk(Outcomes(more, t), Failures(f, t), t in k) {
      assert CounterOk(Outcomes(outcomes, t), Failures(failures, t), t in skipped);
      assert t != tenant ==> Failures(f, t) == Failures(failures, t) && (t in k <==> t in skipped);
    }
  }
}
