/**
  The durable spool under its writers and pump loops (packages/transport/src/spool/)
  as a step relation. Any number of loops may be out at once: stopping awaits the
  loop, but a start in the meantime revives it beside a new one. The outcome of a
  POST is arbitrary here.
*/
module SpoolProtocol {
  import opened Base
  import opened Events
  import opened Runs

  /** A pump loop: a batch is out, or its final outcome is known. */
  datatype Loop = Posting(batch: seq<Event>) | Settled(batch: seq<Event>, ok: bool)

  datatype Client = Client(
    history: seq<Event>,      // all that was ever inserted
    spool: seq<Event>,        // what is in the table, in insertion order
    loops: map<nat, Loop>,
    delivered: set<Event>,    // deleted on a 2xx
    reported: set<Event>)     // deleted on an unrecoverable 4xx, with a report

  datatype Step =
    | Enqueue(e: Event)
    | Peek(loop: nat, n: nat)
    | Learn(loop: nat, ok: bool)
    | Finish(loop: nat)         // report if need be, and delete the batch
    | Leave(loop: nat)          // a transient outcome, or the loop is stopped
    | Crash                     // the process dies; the table is durable

  /** Deleting by id. */
  function Without(spool: seq<Event>, batch: seq<Event>): seq<Event> {
    if spool == [] then []
    else (if HasId(batch, spool[0].id) then [] else [spool[0]]) + Without(spool[1..], batch)
  }

  ghost predicate Enabled(cap: nat, c: Client, step: Step) {
    match step
    case Enqueue(e) => |c.spool| < cap && e.id.Some? && !HasId(c.history, e.id)
    case Peek(l, n) => l !in c.loops && 0 < n <= |c.spool|
    case Learn(l, ok) => l in c.loops && c.loops[l].Posting?
    case Finish(l) => l in c.loops && c.loops[l].Settled?
    case Leave(l) => l in c.loops
    case Crash => true
  }

  function EventsIn(events: seq<Event>): set<Event> { set e | e in events }

  ghost function Next(cap: nat, c: Client, step: Step): Client
    requires Enabled(cap, c, step)
  {
    match step
    case Enqueue(e) => c.(history := c.history + [e], spool := c.spool + [e])
    case Peek(l, n) => c.(loops := c.loops[l := Posting(c.spool[..n])])
    case Learn(l, ok) => c.(loops := c.loops[l := Settled(c.loops[l].batch, ok)])
    case Finish(l) =>
      var loop := c.loops[l];
      c.(spool := Without(c.spool, loop.batch), loops := c.loops - {l},
         delivered := if loop.ok then c.delivered + EventsIn(loop.batch) else c.delivered,
         reported := if loop.ok then c.reported else c.reported + EventsIn(loop.batch))
    case Leave(l) => c.(loops := c.loops - {l})
    case Crash => c.(loops := map[])
  }

  // -------------------------------------------------------------------- invariant

  /** Ids are assigned once. */
  ghost predicate OneIdEach(history: seq<Event>) {
    forall i, j :: 0 <= i < j < |history| ==> history[i].id != history[j].id
  }

  /** A batch is a stretch of the history that starts where something is gone already
      or at the head of the spool. */
  ghost predicate Stretch(c: Client, batch: seq<Event>, i: nat) {
    i + |c.spool| <= |c.history| && i + |batch| <= |c.history| && batch == c.history[i..i + |batch|]
  }

  ghost predicate BatchOk(c: Client, batch: seq<Event>) { exists i: nat :: Stretch(c, batch, i) }

  /** The spool is the history minus a prefix. */
  ghost predicate IsSuffix(c: Client) {
    |c.spool| <= |c.history| && c.spool == c.history[|c.history| - |c.spool|..]
  }

  /** All that is gone was answered with a 2xx or reported. */
  ghost predicate Accounted(c: Client) {
    forall e :: e in c.history ==> e in c.spool || e in c.delivered || e in c.reported
  }

  /** Nothing else was: what was answered or reported was inserted once, and is gone. */
  ghost predicate Apart(c: Client) {
    forall e :: e in c.delivered || e in c.reported ==> e in c.history && e !in c.spool
  }

  ghost predicate Inv(limit: nat, c: Client) {
    && OneIdEach(c.history) && IsSuffix(c) && Accounted(c) && Apart(c) && |c.spool| <= limit
    && forall l :: l in c.loops ==> BatchOk(c, c.loops[l].batch)
  }

  lemma BatchGrows(c: Client, d: Client, batch: seq<Event>)
    requires BatchOk(c, batch) && c.history <= d.history && |d.history| - |d.spool| >= |c.history| - |c.spool|
    ensures BatchOk(d, batch)
  {
    var i: nat :| Stretch(c, batch, i);
    assert d.history[i..i + |batch|] == c.history[i..i + |batch|];
    assert Stretch(d, batch, i);
  }

  lemma EnqueueKeepsInv(limit: nat, cap: nat, c: Client, e: Event)
    requires Inv(limit, c) && cap <= limit && Enabled(cap, c, Enqueue(e))
    ensures Inv(limit, Next(cap, c, Enqueue(e)))
  {
    var d := Next(cap, c, Enqueue(e));
    forall l | l in d.loops ensures BatchOk(d, d.loops[l].batch) {
      BatchGrows(c, d, c.loops[l].batch);
    }
    forall i, j | 0 <= i < j < |d.history| ensures d.history[i].id != d.history[j].id {
      if j == |c.history| {
        assert c.history[i] in c.history;
      }
    }
    assert e !in c.history;
  }

  lemma PeekKeepsInv(limit: nat, cap: nat, c: Client, l: nat, n: nat)
    requires Inv(limit, c) && Enabled(cap, c, Peek(l, n))
    ensures Inv(limit, Next(cap, c, Peek(l, n)))
  {
    var d := Next(cap, c, Peek(l, n));
    forall m | m in d.loops ensures BatchOk(d, d.loops[m].batch) {
      if m == l {
        assert Stretch(d, c.spool[..n], |c.history| - |c.spool|);
      } else {
        BatchGrows(c, d, c.loops[m].batch);
      }
    }
  }

  lemma {:induction false} WithoutIsSubset(spool: seq<Event>, batch: seq<Event>)
    ensures forall e :: e in Without(spool, batch) <==> e in spool && !HasId(batch, e.id)
  {
    if spool != [] {
      WithoutIsSubset(spool[1..], batch);
      assert spool == [spool[0]] + spool[1..];
    }
  }

  /** Deleting what comes before position `j`. */
  lemma {:induction false} WithoutPrefix(history: seq<Event>, g: nat, j: nat, batch: seq<Event>)
    requires g <= |history| && j <= |history|
    requires forall p {:trigger history[p]} :: g <= p < |history| ==> (HasId(batch, history[p].id) <==> p < j)
    ensures Without(history[g..], batch) == if j <= g then history[g..] else history[j..]
    decreases |history| - g
  {
    if g < |history| {
      assert history[g..][1..] == history[g + 1..];
      WithoutPrefix(history, g + 1, j, batch);
    }
  }

  lemma StretchHasId(c: Client, batch: seq<Event>, i: nat, p: nat)
    requires OneIdEach(c.history) && Stretch(c, batch, i) && i <= p < |c.history|
    ensures HasId(batch, c.history[p].id) <==> p < i + |batch|
  {
    assert forall q :: 0 <= q < |batch| ==> batch[q] == c.history[i + q];
    assert p < i + |batch| ==> batch[p - i] in batch;
  }

  /** Deleting a batch leaves what comes behind it, or all if that is gone already. */
  lemma DeletedIs(c: Client, batch: seq<Event>, i: nat, g: nat, k: nat)
    requires OneIdEach(c.history) && IsSuffix(c) && Stretch(c, batch, i) && g == |c.history| - |c.spool|
    requires k == if i + |batch| <= g then g else i + |batch|
    ensures k <= |c.history| && Without(c.spool, batch) == c.history[k..]
  {
    StretchHasIds(c, batch, i, g);
    assert i + |batch| <= |c.history| && c.spool == c.history[g..];
    WithoutFrom(c.history, c.spool, g, i + |batch|, k, batch);
  }

  lemma DeletedLength(c: Client, batch: seq<Event>, i: nat, g: nat, k: nat)
    requires OneIdEach(c.history) && IsSuffix(c) && Stretch(c, batch, i) && g == |c.history| - |c.spool|
    requires k == if i + |batch| <= g then g else i + |batch|
    ensures |Without(c.spool, batch)| == |c.history| - k
  {
    DeletedIs(c, batch, i, g, k);
  }

  lemma WithoutFrom(history: seq<Event>, spool: seq<Event>, g: nat, j: nat, k: nat, batch: seq<Event>)
    requires g <= |history| && j <= |history| && spool == history[g..] && k == if j <= g then g else j
    requires forall p {:trigger history[p]} :: g <= p < |history| ==> (HasId(batch, history[p].id) <==> p < j)
    ensures Without(spool, batch) == history[k..]
  {
    WithoutPrefix(history, g, j, batch);
  }

  lemma StretchHasIds(c: Client, batch: seq<Event>, i: nat, g: nat)
    requires OneIdEach(c.history) && Stretch(c, batch, i) && i <= g
    ensures forall p {:trigger c.history[p]} ::
              g <= p < |c.history| ==> (HasId(batch, c.history[p].id) <==> p < i + |batch|)
  {
    forall p {:trigger c.history[p]} | g <= p < |c.history|
      ensures HasId(batch, c.history[p].id) <==> p < i + |batch|
    {
      StretchHasId(c, batch, i, p);
    }
  }

  /** Deleting a batch leaves a suffix. */
  lemma DeletedIsSuffix(c: Client, batch: seq<Event>, i: nat)
    requires OneIdEach(c.history) && IsSuffix(c) && Stretch(c, batch, i)
    ensures var spool := Without(c.spool, batch); |spool| <= |c.spool| && spool == c.history[|c.history| - |spool|..]
  {
    var g := |c.history| - |c.spool|;
    var k := if i + |batch| <= g then g else i + |batch|;
    DeletedIs(c, batch, i, g, k);
    SuffixFrom(c.history, k, Without(c.spool, batch));
  }

  lemma SuffixFrom(history: seq<Event>, j: nat, rest: seq<Event>)
    requires j <= |history| && rest == history[j..]
    ensures |history| - |rest| == j && rest == history[|history| - |rest|..]
  {
  }

  /** Nothing is deleted that is not in the batch. */
  lemma DeletedInBatch(c: Client, batch: seq<Event>, i: nat, e: Event)
    requires OneIdEach(c.history) && IsSuffix(c) && Stretch(c, batch, i) && e in c.spool
    ensures e in Without(c.spool, batch) || e in batch
  {
    var k :| 0 <= k < |c.spool| && c.spool[k] == e;
    var p := |c.history| - |c.spool| + k;
    assert c.history[p] == e;
    StretchHasId(c, batch, i, p);
    if p < i + |batch| {
      assert batch[p - i] == e;
    }
    WithoutIsSubset(c.spool, batch);
  }

  lemma FinishAccounts(cap: nat, c: Client, l: nat, i: nat)
    requires OneIdEach(c.history) && IsSuffix(c) && Accounted(c) && Enabled(cap, c, Finish(l))
    requires Stretch(c, c.loops[l].batch, i)
    ensures Accounted(Next(cap, c, Finish(l)))
  {
    forall e | e in c.spool ensures e in Without(c.spool, c.loops[l].batch) || e in c.loops[l].batch {
      DeletedInBatch(c, c.loops[l].batch, i, e);
    }
  }

  lemma FinishKeepsApart(cap: nat, c: Client, l: nat, i: nat)
    requires Apart(c) && Enabled(cap, c, Finish(l)) && Stretch(c, c.loops[l].batch, i)
    ensures Apart(Next(cap, c, Finish(l)))
  {
    WithoutIsSubset(c.spool, c.loops[l].batch);
  }

  lemma FinishKeepsInv(limit: nat, cap: nat, c: Client, l: nat)
    requires Inv(limit, c) && Enabled(cap, c, Finish(l))
    ensures Inv(limit, Next(cap, c, Finish(l)))
  {
    var d := Next(cap, c, Finish(l));
    var i: nat :| Stretch(c, c.loops[l].batch, i);
    DeletedIsSuffix(c, c.loops[l].batch, i);
    FinishAccounts(cap, c, l, i);
    FinishKeepsApart(cap, c, l, i);
    forall m | m in d.loops ensures BatchOk(d, d.loops[m].batch) {
      BatchGrows(c, d, c.loops[m].batch);
    }
  }

  lemma OthersKeepInv(limit: nat, cap: nat, c: Client, step: Step)
    requires Inv(limit, c) && Enabled(cap, c, step) && (step.Learn? || step.Leave? || step.Crash?)
    ensures Inv(limit, Next(cap, c, step))
  {
    var d := Next(cap, c, step);
    forall m | m in d.loops ensures BatchOk(d, d.loops[m].batch) {
      BatchGrows(c, d, c.loops[m].batch);
    }
  }

  lemma StepKeepsInv(limit: nat, cap: nat, c: Client, step: Step)
    requires Inv(limit, c) && cap <= limit && Enabled(cap, c, step)
    ensures Inv(limit, Next(cap, c, step))
  {
    match step
    case Enqueue(e) => EnqueueKeepsInv(limit, cap, c, e);
    case Peek(l, n) => PeekKeepsInv(limit, cap, c, l, n);
    case Finish(l) => FinishKeepsInv(limit, cap, c, l);
    case _ => OthersKeepInv(limit, cap, c, step);
  }

  // ------------------------------------------------------------------------- runs

  ghost predicate Moves(cap: nat, c: Client, d: Client) {
    exists step :: Enabled(cap, c, step) && d == Next(cap, c, step)
  }

  ghost function Steps(cap: nat): (Client, Client) -> bool { (c, d) => Moves(cap, c, d) }

  /** A process starts over whatever an earlier one left in the table. */
  ghost predicate Init(c: Client) {
    c.loops == map[] && c.history == c.spool && c.delivered == {} && c.reported == {} && OneIdEach(c.history)
  }

  function Limit(cap: nat, start: Client): nat { if |start.spool| > cap then |start.spool| else cap }

  /** Over every run of writers and pump loops, with crashes: the table is the
      insertion history minus a prefix, every event of the prefix was answered with
      a 2xx or reported, and the table never exceeds the cap or, if it started
      beyond that, its initial size. */
  lemma SpoolIsHistory(cap: nat, start: Client, c: Client)
    requires Init(start) && Run(Steps(cap), start, c)
    ensures |c.spool| <= |c.history| && c.spool == c.history[|c.history| - |c.spool|..]
    ensures forall e :: e in c.history[..|c.history| - |c.spool|] <==> e in c.delivered || e in c.reported
    ensures |c.spool| <= Limit(cap, start)
    ensures start.history <= c.history
  {
    var limit := Limit(cap, start);
    var inv := d => Inv(limit, d) && start.history <= d.history;
    forall a, b {:trigger Steps(cap)(a, b)} | inv(a) && Steps(cap)(a, b) ensures inv(b) {
      var step :| Enabled(cap, a, step) && b == Next(cap, a, step);
      StepKeepsInv(limit, cap, a, step);
    }
    RunKeeps(Steps(cap), inv, start, c);
    PrefixIsGone(c);
  }

  lemma PrefixIsGone(c: Client)
    requires OneIdEach(c.history) && IsSuffix(c) && Accounted(c) && Apart(c)
    ensures forall e :: e in c.history[..|c.history| - |c.spool|] <==> e in c.delivered || e in c.reported
  {
    var g := |c.history| - |c.spool|;
    forall e | e in c.history[..g] ensures e !in c.spool && e in c.history {
      var i :| 0 <= i < g && c.history[i] == e;
      forall j | 0 <= j < |c.spool| ensures c.spool[j] != e {
        assert c.spool[j] == c.history[g + j];
      }
    }
    forall e | e in c.history ensures e in c.spool || e in c.history[..g] {
      var i :| 0 <= i < |c.history| && c.history[i] == e;
      if i >= g {
        assert c.spool[i - g] == e;
      }
    }
  }
}
