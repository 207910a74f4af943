/**
  What can still be delivered: pumps with a fixed batch size, which post the oldest
  events up to that size or all there are, and get past a batch only as a whole.
*/
module DeliveryLiveness {
  import opened Base
  import opened Events
  import opened Runs
  import opened SpoolProtocol
  import opened Delivery
  import IngestProtocol

  /** The pumps of one spool: their tenant, the cap of the spool, and the batch size. */
  datatype Pumps = Pumps(tenant: string, cap: nat, size: nat)

  /** A peek takes as many events as the batch size says, or all there are. */
  predicate Sized(size: nat, s: Delivery.State, step: Delivery.Step) {
    step.AtClient? && step.c.Peek? ==> step.c.n == Min(size, |s.client.spool|)
  }

  ghost predicate Goes(p: Pumps, sent: iset<IngestProtocol.Batch>, s: Delivery.State, step: Delivery.Step) {
    Delivery.Enabled(p.tenant, p.cap, sent, s, step) && Sized(p.size, s, step)
  }

  ghost predicate Moves(p: Pumps, sent: iset<IngestProtocol.Batch>, s: Delivery.State, t: Delivery.State) {
    exists step :: Goes(p, sent, s, step) && t == Delivery.Next(p.tenant, p.cap, sent, s, step)
  }

  ghost function Steps(p: Pumps, sent: iset<IngestProtocol.Batch>): (Delivery.State, Delivery.State) -> bool {
    (s, t) => Moves(p, sent, s, t)
  }

  // ------------------------------------------------------------------------ chunks

  /** The batch that has position `i`, when the pumps go through a table from its head. */
  function Chunk(size: nat, spool: seq<Event>, i: nat): seq<Event>
    requires size > 0 && i < |spool|
    decreases i
  {
    if i < size then spool[..Min(size, |spool|)] else Chunk(size, spool[size..], i - size)
  }

  /** The stretch of the batch size that has position `i`, counted from the head. */
  function Around(size: nat, spool: seq<Event>, i: nat): seq<Event>
    requires size > 0 && i < |spool|
  {
    spool[i - i % size..Min(i - i % size + size, |spool|)]
  }

  lemma SliceOfSlice(events: seq<Event>, k: nat, i: nat, j: nat)
    requires k <= |events| && i <= j <= |events| - k
    ensures events[k..][i..j] == events[k + i..k + j]
  {
  }

  lemma {:induction false} ChunkFrom(size: nat, spool: seq<Event>, i: nat, q: nat, lo: nat)
    requires size > 0 && i < |spool| && lo == q * size && lo <= i < lo + size
    ensures Chunk(size, spool, i) == spool[lo..Min(lo + size, |spool|)]
    decreases q
  {
    if q > 0 {
      OneLess(q, size);
      ChunkFrom(size, spool[size..], i - size, q - 1, lo - size);
      SliceOfSlice(spool, size, lo - size, Min(lo, |spool| - size));
    } else {
      assert lo == 0 && spool[0..Min(size, |spool|)] == spool[..Min(size, |spool|)];
    }
  }

  lemma OneLess(q: nat, size: nat)
    requires q > 0
    ensures q * size == (q - 1) * size + size
  {
  }

  lemma ChunkIs(size: nat, spool: seq<Event>, i: nat)
    requires size > 0 && i < |spool|
    ensures Chunk(size, spool, i) == Around(size, spool, i)
  {
    var q, lo := RoundedDown(i, size);
    ChunkFrom(size, spool, i, q, lo);
  }

  lemma RoundedDown(i: nat, size: nat) returns (q: nat, lo: nat)
    requires size > 0
    ensures lo == i - i % size == q * size && lo <= i < lo + size
  {
    q, lo := i / size, i - i % size;
  }

  /** None of the events throws. */
  predicate Sendable(batch: seq<Event>) { forall e :: e in batch ==> !Stuck(e) }

  /** The pumps can deliver the event, going through a table from its head. */
  ghost predicate Clear(size: nat, spool: seq<Event>, e: Event) {
    size > 0 && exists i :: 0 <= i < |spool| && spool[i] == e && Sendable(Chunk(size, spool, i))
  }

  /** They can do so now, or once a loop that is out has left; or such a loop can. */
  ghost predicate Open(size: nat, c: Client, e: Event) {
    || Clear(size, c.spool, e)
    || (exists l :: l in c.loops && Clear(size, Without(c.spool, c.loops[l].batch), e))
    || (exists l :: l in c.loops && e in c.loops[l].batch && Hopeful(c.loops[l]))
  }

  /** A batch that is out can be, or has been, answered with a 2xx. */
  predicate Hopeful(l: Loop) { Sendable(l.batch) && (l.Settled? ==> l.ok) }

  // ----------------------------------------------------------- what is held up stays

  /** Going on from position `k` of the history, position `x` is passed or held up: a
      judgement as a value. */
  function Held(size: nat, history: seq<Event>, x: nat, k: nat): Verdict
    requires x < |history|
    decreases x - k
  {
    if k > x || size == 0 then Upheld
    else if k + size <= x then Held(size, history, x, k + size)
    else if exists q :: k <= q < k + size && q < |history| && Stuck(history[q]) then Upheld
    else Violated
  }

  /** A chunk of what is left, from position `k` on, that throws holds `x` up. */
  lemma {:induction false} ThrowingHolds(size: nat, history: seq<Event>, x: nat, k: nat, rest: seq<Event>)
    requires size > 0 && k <= x < |history| && rest == history[k..] && !Sendable(Chunk(size, rest, x - k))
    ensures Held(size, history, x, k) == Upheld
    decreases x - k
  {
    if k + size <= x {
      assert rest[size..] == history[k + size..];
      ThrowingHolds(size, history, x, k + size, rest[size..]);
    } else {
      var e :| e in rest[..Min(size, |rest|)] && Stuck(e);
      var j :| 0 <= j < Min(size, |rest|) && rest[j] == e;
      assert history[k + j] == e;
    }
  }

  lemma ClearOfSuffix(size: nat, history: seq<Event>, x: nat, k: nat)
    requires x < |history| && k <= |history| && !Clear(size, history[k..], history[x])
    ensures Held(size, history, x, k) == Upheld
  {
    if k <= x && size > 0 {
      assert history[k..][x - k] == history[x];
      ThrowingHolds(size, history, x, k, history[k..]);
    }
  }

  function Gone(c: Client): int { |c.history| - |c.spool| }

  function Later(a: int, b: int): int { if a < b then b else a }

  /** More history holds up what was held up. */
  lemma {:induction false} HeldGrows(size: nat, history: seq<Event>, more: seq<Event>, x: nat, k: nat)
    requires history <= more && x < |history| && Held(size, history, x, k) == Upheld
    ensures Held(size, more, x, k) == Upheld
    decreases x - k
  {
    if k <= x && size > 0 {
      if k + size <= x {
        HeldGrows(size, history, more, x, k + size);
      } else {
        var q :| k <= q < k + size && q < |history| && Stuck(history[q]);
        assert more[q] == history[q];
      }
    }
  }

  /** A loop that is out neither delivers position `x` nor lets the pumps past. */
  ghost predicate LoopHeld(size: nat, x: nat, c: Client, l: Loop, i: nat)
    requires x < |c.history|
  {
    && Stretch(c, l.batch, i)
    && Held(size, c.history, x, Later(Gone(c), i + |l.batch|)) == Upheld
    && (c.history[x] in l.batch ==> !Hopeful(l))
  }

  ghost predicate SomewhereHeld(size: nat, x: nat, c: Client, l: Loop)
    requires x < |c.history|
  {
    exists i: nat :: LoopHeld(size, x, c, l, i)
  }

  /** All that holds position `x` up. */
  ghost predicate HeldUp(size: nat, x: nat, e: Event, c: Client) {
    && x < |c.history| && c.history[x] == e && 0 <= Gone(c)
    && Held(size, c.history, x, Gone(c)) == Upheld && e !in c.delivered
    && forall l :: l in c.loops ==> SomewhereHeld(size, x, c, c.loops[l])
  }

  lemma LoopIsHeld(size: nat, x: nat, c: Client, l: Loop, i: nat, k: nat)
    requires x < |c.history| && Stretch(c, l.batch, i) && k == Later(Gone(c), i + |l.batch|)
    requires Held(size, c.history, x, k) == Upheld && (c.history[x] in l.batch ==> !Hopeful(l))
    ensures SomewhereHeld(size, x, c, l)
  {
    assert LoopHeld(size, x, c, l, i);
  }

  lemma StartsHeldUp(p: Pumps, limit: nat, c: Client, x: nat)
    requires SpoolProtocol.Inv(limit, c) && Gone(c) <= x < |c.history| && !Open(p.size, c, c.history[x])
    ensures HeldUp(p.size, x, c.history[x], c)
  {
    InSpool(c, x);
    ClearOfSuffix(p.size, c.history, x, Gone(c));
    forall l | l in c.loops ensures SomewhereHeld(p.size, x, c, c.loops[l]) {
      LoopStartsHeld(p.size, c, c.loops[l], x);
    }
  }

  lemma LoopStartsHeld(size: nat, c: Client, l: Loop, x: nat)
    requires OneIdEach(c.history) && IsSuffix(c) && BatchOk(c, l.batch) && x < |c.history|
    requires !Clear(size, Without(c.spool, l.batch), c.history[x]) && (c.history[x] in l.batch ==> !Hopeful(l))
    ensures SomewhereHeld(size, x, c, l)
  {
    var i: nat :| Stretch(c, l.batch, i);
    var k := Later(Gone(c), i + |l.batch|);
    DeletedIs(c, l.batch, i, Gone(c), k);
    ClearOfSuffix(size, c.history, x, k);
    LoopIsHeld(size, x, c, l, i, k);
  }

  /** What is not gone is in the table. */
  lemma InSpool(c: Client, x: nat)
    requires IsSuffix(c) && Gone(c) <= x < |c.history|
    ensures c.history[x] in c.spool
  {
    assert c.spool[x - Gone(c)] == c.history[x];
  }

  /** A loop whose batch is the same, and that is no nearer to a 2xx. */
  predicate IsNoBetter(l: Loop, m: Loop) { m == l || (m.batch == l.batch && (Hopeful(m) ==> Hopeful(l))) }

  lemma LoopStaysHeld(size: nat, x: nat, c: Client, d: Client, l: Loop, m: Loop)
    requires x < |c.history| && SomewhereHeld(size, x, c, l) && 0 <= Gone(c) <= Gone(d)
    requires c.history <= d.history && IsNoBetter(l, m) && Held(size, d.history, x, Gone(d)) == Upheld
    ensures SomewhereHeld(size, x, d, m)
  {
    var i: nat :| LoopHeld(size, x, c, l, i);
    var k := Later(Gone(c), i + |l.batch|);
    HeldGrows(size, c.history, d.history, x, k);
    assert d.history[i..i + |m.batch|] == c.history[i..i + |m.batch|];
    LoopIsHeld(size, x, d, m, i, if k <= Gone(d) then Gone(d) else k);
  }

  /** Nothing changes if no loop that is out does. */
  lemma StaysHeldUp(size: nat, x: nat, e: Event, c: Client, d: Client, k: int)
    requires HeldUp(size, x, e, c) && c.history <= d.history && Gone(c) <= k == Gone(d)
    requires Held(size, d.history, x, k) == Upheld && e !in d.delivered
    requires forall m :: m in d.loops ==> (m in c.loops && IsNoBetter(c.loops[m], d.loops[m]))
                                          || SomewhereHeld(size, x, c, d.loops[m])
    ensures HeldUp(size, x, e, d)
  {
    forall m | m in d.loops ensures SomewhereHeld(size, x, d, d.loops[m]) {
      var l := if SomewhereHeld(size, x, c, d.loops[m]) then d.loops[m] else c.loops[m];
      LoopStaysHeld(size, x, c, d, l, d.loops[m]);
    }
  }

  lemma NotInBatch(history: seq<Event>, batch: seq<Event>, i: nat, x: nat)
    requires OneIdEach(history) && i + |batch| <= |history| && batch == history[i..i + |batch|]
    requires x < |history| && !(i <= x < i + |batch|)
    ensures history[x] !in batch
  {
    forall j | 0 <= j < |batch| ensures batch[j] != history[x] {
      assert batch[j] == history[i + j];
    }
  }

  /** The next batch of the pumps. */
  lemma HeadIsHeld(size: nat, history: seq<Event>, x: nat, g: nat, n: nat, batch: seq<Event>)
    requires OneIdEach(history) && x < |history| && g <= |history| && 0 < n == Min(size, |history| - g)
    requires Held(size, history, x, g) == Upheld && batch == history[g..g + n]
    ensures Held(size, history, x, g + n) == Upheld && (history[x] in batch ==> !Sendable(batch))
  {
    if g > x || g + size <= x {
      NotInBatch(history, batch, g, x);
    } else {
      var q :| g <= q < g + size && q < |history| && Stuck(history[q]);
      assert batch[q - g] == history[q];
    }
  }

  lemma PeekedIsHeld(size: nat, x: nat, c: Client, n: nat, batch: seq<Event>)
    requires OneIdEach(c.history) && IsSuffix(c) && 0 < n == Min(size, |c.spool|) && batch == c.spool[..n]
    requires x < |c.history| && Held(size, c.history, x, Gone(c)) == Upheld
    ensures SomewhereHeld(size, x, c, Posting(batch))
  {
    var g := Gone(c);
    assert batch == c.history[g..g + n];
    HeadIsHeld(size, c.history, x, g, n, batch);
    LoopIsHeld(size, x, c, Posting(batch), g, g + n);
  }

  lemma PeekHoldsUp(size: nat, cap: nat, x: nat, e: Event, c: Client, l: nat, n: nat)
    requires HeldUp(size, x, e, c) && OneIdEach(c.history) && IsSuffix(c) && n == Min(size, |c.spool|)
    requires SpoolProtocol.Enabled(cap, c, Peek(l, n))
    ensures HeldUp(size, x, e, SpoolProtocol.Next(cap, c, Peek(l, n)))
  {
    PeekedIsHeld(size, x, c, n, c.spool[..n]);
    StaysHeldUp(size, x, e, c, SpoolProtocol.Next(cap, c, Peek(l, n)), Gone(c));
  }

  /** A loop that delivers has been answered, so none of its events throws. */
  lemma DeliveringIsHopeful(tenant: string, limit: nat, sent: iset<IngestProtocol.Batch>, s: Delivery.State, l: nat)
    requires Delivery.Inv(tenant, limit, sent, s) && l in s.client.loops
    requires s.client.loops[l].Settled? && s.client.loops[l].ok
    ensures Hopeful(s.client.loops[l])
  {
    var batch := s.client.loops[l].batch;
    assert Answered(s.server.acked, tenant, batch);
    var service :| Posted(tenant, service, batch) in s.server.acked;
    forall e | e in batch && Stuck(e) ensures false {
      StuckIsNotAcked(tenant, sent, s.server, e, Posted(tenant, service, batch));
    }
  }

  /** What is gone once the batch of a loop is. */
  lemma LoopLeavesHeld(size: nat, x: nat, c: Client, l: Loop, k: int)
    requires x < |c.history| && SomewhereHeld(size, x, c, l) && OneIdEach(c.history) && IsSuffix(c)
    requires k == |c.history| - |Without(c.spool, l.batch)|
    ensures k >= Gone(c) && Held(size, c.history, x, k) == Upheld
    ensures c.history[x] in l.batch ==> !Hopeful(l)
  {
    var i: nat :| LoopHeld(size, x, c, l, i);
    LeavesHeld(size, x, c, l.batch, i, Later(Gone(c), i + |l.batch|), k);
  }

  lemma LeavesHeld(size: nat, x: nat, c: Client, batch: seq<Event>, i: nat, j: int, k: int)
    requires x < |c.history| && OneIdEach(c.history) && IsSuffix(c) && Stretch(c, batch, i)
    requires j == Later(Gone(c), i + |batch|) && Held(size, c.history, x, j) == Upheld
    requires k == |c.history| - |Without(c.spool, batch)|
    ensures k == j >= Gone(c) && Held(size, c.history, x, k) == Upheld
  {
    DeletedLength(c, batch, i, Gone(c), j);
  }

  lemma FinishHoldsUp(size: nat, cap: nat, x: nat, e: Event, c: Client, l: nat)
    requires HeldUp(size, x, e, c) && OneIdEach(c.history) && IsSuffix(c)
    requires SpoolProtocol.Enabled(cap, c, Finish(l)) && (c.loops[l].ok ==> Hopeful(c.loops[l]))
    ensures HeldUp(size, x, e, SpoolProtocol.Next(cap, c, Finish(l)))
  {
    var d := SpoolProtocol.Next(cap, c, Finish(l));
    LoopLeavesHeld(size, x, c, c.loops[l], Gone(d));
    assert d.loops == c.loops - {l} && e !in d.delivered;
    StaysHeldUp(size, x, e, c, d, Gone(d));
  }

  lemma OthersHoldUp(size: nat, cap: nat, x: nat, e: Event, c: Client, step: SpoolProtocol.Step)
    requires HeldUp(size, x, e, c) && !step.Finish? && !step.Peek? && SpoolProtocol.Enabled(cap, c, step)
    ensures HeldUp(size, x, e, SpoolProtocol.Next(cap, c, step))
  {
    var d := SpoolProtocol.Next(cap, c, step);
    HeldGrows(size, c.history, d.history, x, Gone(c));
    StaysHeldUp(size, x, e, c, d, Gone(c));
  }

  lemma MoveHoldsUp(p: Pumps, limit: nat, sent: iset<IngestProtocol.Batch>, s: Delivery.State, step: Delivery.Step,
                    x: nat, e: Event)
    requires Delivery.Inv(p.tenant, limit, sent, s) && HeldUp(p.size, x, e, s.client) && Goes(p, sent, s, step)
    ensures HeldUp(p.size, x, e, Delivery.Next(p.tenant, p.cap, sent, s, step).client)
  {
    if step.AtClient? {
      if step.c.Finish? {
        if s.client.loops[step.c.loop].ok {
          DeliveringIsHopeful(p.tenant, limit, sent, s, step.c.loop);
        }
        FinishHoldsUp(p.size, p.cap, x, e, s.client, step.c.loop);
      } else if step.c.Peek? {
        PeekHoldsUp(p.size, p.cap, x, e, s.client, step.c.loop, step.c.n);
      } else {
        OthersHoldUp(p.size, p.cap, x, e, s.client, step.c);
      }
    }
  }

  lemma MovesHoldUp(p: Pumps, limit: nat, sent: iset<IngestProtocol.Batch>, s: Delivery.State, t: Delivery.State,
                    x: nat, e: Event)
    requires Delivery.Inv(p.tenant, limit, sent, s) && p.cap <= limit && HeldUp(p.size, x, e, s.client)
    requires Moves(p, sent, s, t)
    ensures Delivery.Inv(p.tenant, limit, sent, t) && HeldUp(p.size, x, e, t.client)
    ensures s.client.history <= t.client.history
  {
    var step :| Goes(p, sent, s, step) && t == Delivery.Next(p.tenant, p.cap, sent, s, step);
    Delivery.StepKeepsInv(p.tenant, limit, p.cap, sent, s, step);
    MoveHoldsUp(p, limit, sent, s, step, x, e);
  }

  lemma RunHoldsUp(p: Pumps, limit: nat, sent: iset<IngestProtocol.Batch>, s: Delivery.State, t: Delivery.State,
                   x: nat, e: Event)
    requires Delivery.Inv(p.tenant, limit, sent, s) && p.cap <= limit && HeldUp(p.size, x, e, s.client)
    requires Run(Steps(p, sent), s, t)
    ensures Delivery.Inv(p.tenant, limit, sent, t) && HeldUp(p.size, x, e, t.client)
    ensures s.client.history <= t.client.history
  {
    var steps := Steps(p, sent);
    var inv := u => Delivery.Inv(p.tenant, limit, sent, u) && HeldUp(p.size, x, e, u.client)
                    && s.client.history <= u.client.history;
    forall a, b {:trigger steps(a, b)} | inv(a) && steps(a, b) ensures inv(b) {
      MovesHoldUp(p, limit, sent, a, b, x, e);
    }
    RunKeeps(steps, inv, s, t);
  }

  /** An event that cannot be delivered never is; unless it is refused it stays in the
      spool, and so does every event that was spooled after it. */
  lemma HeldUpStays(p: Pumps, limit: nat, sent: iset<IngestProtocol.Batch>, s: Delivery.State, t: Delivery.State,
                    i: nat, j: nat)
    requires Delivery.Inv(p.tenant, limit, sent, s) && p.cap <= limit && Run(Steps(p, sent), s, t)
    requires i <= j < |s.client.spool| && !Open(p.size, s.client, s.client.spool[i])
    ensures s.client.spool[i] !in t.client.delivered
    ensures s.client.spool[i] !in t.client.reported ==> s.client.spool[j] in t.client.spool
  {
    var x, y := Gone(s.client) + i, Gone(s.client) + j;
    assert s.client.spool[i] == s.client.history[x] && s.client.spool[j] == s.client.history[y];
    StartsHeldUp(p, limit, s.client, x);
    RunHoldsUp(p, limit, sent, s, t, x, s.client.spool[i]);
    assert t.client.history[x] == s.client.history[x] && t.client.history[y] == s.client.history[y];
    if s.client.spool[i] !in t.client.reported {
      assert Accounted(t.client) && t.client.history[x] in t.client.spool;
      SuffixHasLater(t.client, x, y);
    }
  }

  lemma OneIdInSpool(c: Client)
    requires OneIdEach(c.history) && IsSuffix(c)
    ensures OneIdEach(c.spool)
  {
    OneIdEachRest(c.history, Gone(c));
  }

  lemma OneIdEachRest(events: seq<Event>, k: nat)
    requires k <= |events| && OneIdEach(events)
    ensures OneIdEach(events[k..])
  {
    var rest := events[k..];
    forall i, j | 0 <= i < j < |rest| ensures rest[i].id != rest[j].id {
      assert rest[i] == events[k + i] && rest[j] == events[k + j];
    }
  }

  lemma ClearAt(size: nat, spool: seq<Event>, i: nat)
    requires size > 0 && i < |spool| && OneIdEach(spool)
    ensures Clear(size, spool, spool[i]) <==> Sendable(Around(size, spool, i))
  {
    ChunkIs(size, spool, i);
    assert forall j :: 0 <= j < |spool| && spool[j].id == spool[i].id ==> j == i;
  }

  /** An event that throws holds up all of its batch, those ahead of it as well, in every
      run from a state in which no loop is out: none of them is delivered, and unless it
      is refused each stays in the spool with all that was spooled after it. */
  lemma BatchIsStuck(p: Pumps, limit: nat, sent: iset<IngestProtocol.Batch>, s: Delivery.State, t: Delivery.State,
                     i: nat, j: nat, e: Event)
    requires Delivery.Inv(p.tenant, limit, sent, s) && p.cap <= limit && Run(Steps(p, sent), s, t)
    requires s.client.loops == map[] && p.size > 0 && i <= j < |s.client.spool|
    requires e in Around(p.size, s.client.spool, i) && Stuck(e)
    ensures s.client.spool[i] !in t.client.delivered
    ensures s.client.spool[i] !in t.client.reported ==> s.client.spool[j] in t.client.spool
  {
    OneIdInSpool(s.client);
    ClearAt(p.size, s.client.spool, i);
    HeldUpStays(p, limit, sent, s, t, i, j);
  }

  // ------------------------------------------------------ what is not can be delivered

  lemma Go(p: Pumps, sent: iset<IngestProtocol.Batch>, start: Delivery.State, s: Delivery.State, step: Delivery.Step)
    returns (t: Delivery.State)
    requires Run(Steps(p, sent), start, s) && Goes(p, sent, s, step)
    ensures t == Delivery.Next(p.tenant, p.cap, sent, s, step) && Run(Steps(p, sent), start, t)
  {
    t := Delivery.Next(p.tenant, p.cap, sent, s, step);
    assert Moves(p, sent, s, t);
    Then(Steps(p, sent), start, s, t);
  }

  /** A posted batch is answered, with a 2xx if none of its events throws. */
  lemma GetsAnswer(p: Pumps, service: string, sent: iset<IngestProtocol.Batch>, start: Delivery.State,
                   s: Delivery.State, batch: seq<Event>)
    returns (t: Delivery.State)
    requires Run(Steps(p, sent), start, s) && s.server.calls == map[] && Posted(p.tenant, service, batch) in sent
    ensures Run(Steps(p, sent), start, t) && t.client == s.client && t.server.calls == map[]
    ensures Answered(if Sendable(batch) then t.server.acked else t.server.refused, p.tenant, batch)
    ensures Sendable(batch)
            ==> forall e :: e in batch && PumpKeeps(e, s.server.strictest)
                  ==> IngestProtocol.Has(t.server.rows, p.tenant, e)
  {
    var u := Go(p, sent, start, s, AtServer(IngestProtocol.Arrive(0, Posted(p.tenant, service, batch))));
    if Sendable(batch) {
      t := GetsStored(p, service, sent, start, u, batch);
    } else {
      t := Go(p, sent, start, u, AtServer(IngestProtocol.Refuse(0)));
    }
  }

  lemma GetsStored(p: Pumps, service: string, sent: iset<IngestProtocol.Batch>, start: Delivery.State,
                   s: Delivery.State, batch: seq<Event>)
    returns (t: Delivery.State)
    requires Run(Steps(p, sent), start, s) && Sendable(batch)
    requires s.server.calls == map[0 := IngestProtocol.Call(Posted(p.tenant, service, batch), None)]
    ensures Run(Steps(p, sent), start, t) && t.client == s.client && t.server.calls == map[]
    ensures Posted(p.tenant, service, batch) in t.server.acked
    ensures forall e :: e in batch && PumpKeeps(e, s.server.strictest)
              ==> IngestProtocol.Has(t.server.rows, p.tenant, e)
  {
    var b, gate := Posted(p.tenant, service, batch), s.server.strictest;
    var ids := IngestProtocol.NewIds(IngestProtocol.Used(s.server.rows), |batch|);
    assert !IngestProtocol.Throws(b);
    var u := Go(p, sent, start, s, AtServer(IngestProtocol.Insert(0, "", gate, ids)));
    IngestProtocol.InsertFiles(s.server, u.server, b, "", gate, ids);
    FiledAreThere(p.tenant, service, u.server, batch, gate);
    t := Go(p, sent, start, u, AtServer(IngestProtocol.Record(0)));
  }

  lemma FiledAreThere(tenant: string, service: string, v: IngestProtocol.Server, batch: seq<Event>, gate: Severity)
    requires IngestProtocol.Filed(v, Posted(tenant, service, batch), gate)
    ensures forall e :: e in batch && PumpKeeps(e, gate) ==> IngestProtocol.Has(v.rows, tenant, e)
  {
    forall e | e in batch && PumpKeeps(e, gate) ensures IngestProtocol.Has(v.rows, tenant, e) {
      LevelIsOwn(service, e);
      assert IngestProtocol.Kept(Posted(tenant, service, batch), e, gate);
    }
  }

  /** A loop that is out learns its answer, and deletes its batch. */
  lemma LoopGoes(p: Pumps, service: string, sent: iset<IngestProtocol.Batch>, start: Delivery.State,
                 s: Delivery.State, l: nat)
    returns (t: Delivery.State)
    requires Run(Steps(p, sent), start, s) && s.server.calls == map[] && l in s.client.loops
    requires Posted(p.tenant, service, s.client.loops[l].batch) in sent
    ensures Run(Steps(p, sent), start, t) && t.server.calls == map[] && t.client.loops == s.client.loops - {l}
    ensures t.client.spool == Without(s.client.spool, s.client.loops[l].batch) && t.client.history == s.client.history
    ensures Hopeful(s.client.loops[l]) ==> forall e :: e in s.client.loops[l].batch ==> e in t.client.delivered
    ensures s.client.loops[l].Posting? && Sendable(s.client.loops[l].batch)
            ==> forall e :: e in s.client.loops[l].batch && PumpKeeps(e, s.server.strictest)
                  ==> IngestProtocol.Has(t.server.rows, p.tenant, e)
  {
    var batch, u := s.client.loops[l].batch, s;
    if s.client.loops[l].Posting? {
      u := GetsAnswer(p, service, sent, start, u, batch);
      u := Go(p, sent, start, u, AtClient(Learn(l, Sendable(batch))));
    }
    t := Go(p, sent, start, u, AtClient(Finish(l)));
    assert u.client.loops - {l} == s.client.loops - {l};
  }

  lemma HeadGoes(p: Pumps, service: string, sent: iset<IngestProtocol.Batch>, start: Delivery.State,
                 s: Delivery.State, head: seq<Event>, rest: seq<Event>)
    returns (t: Delivery.State)
    requires Run(Steps(p, sent), start, s) && s.client.loops == map[] && s.server.calls == map[]
    requires s.client.spool == head + rest && OneIdEach(s.client.spool) && 0 < |head| == Min(p.size, |s.client.spool|)
    requires Posted(p.tenant, service, head) in sent
    ensures Run(Steps(p, sent), start, t) && t.client.loops == map[] && t.server.calls == map[]
    ensures t.client.spool == rest && (Sendable(head) ==> forall e :: e in head ==> e in t.client.delivered)
    ensures Sendable(head)
            ==> forall e :: e in head && PumpKeeps(e, s.server.strictest)
                  ==> IngestProtocol.Has(t.server.rows, p.tenant, e)
  {
    var u := Go(p, sent, start, s, AtClient(Peek(0, |head|)));
    assert s.client.spool[..|head|] == head;
    t := LoopGoes(p, service, sent, start, u, 0);
    HeadIsGone(head, rest);
  }

  lemma HeadIsGone(head: seq<Event>, rest: seq<Event>)
    requires OneIdEach(head + rest)
    ensures Without(head + rest, head) == rest
  {
    var all, n := head + rest, |head|;
    forall q {:trigger all[q]} | 0 <= q < |all| ensures HasId(head, all[q].id) <==> q < n {
      assert q < n ==> all[q] == head[q] && head[q] in head;
      assert forall r :: 0 <= r < n ==> head[r] == all[r];
    }
    WithoutFrom(all, all, 0, n, n, head);
    assert all[n..] == rest;
  }

  ghost predicate IsPart(batch: seq<Event>, events: seq<Event>) {
    exists i: nat :: IsPartAt(batch, events, i)
  }

  predicate IsPartAt(batch: seq<Event>, events: seq<Event>, i: nat) {
    i + |batch| <= |events| && batch == events[i..i + |batch|]
  }

  /** Callers are free to send any stretch of some events as a pump's batch. */
  ghost predicate MayPost(tenant: string, service: string, sent: iset<IngestProtocol.Batch>, events: seq<Event>) {
    forall batch :: IsPart(batch, events) ==> Posted(tenant, service, batch) in sent
  }

  lemma MayPostRest(tenant: string, service: string, sent: iset<IngestProtocol.Batch>, events: seq<Event>, k: nat)
    requires k <= |events| && MayPost(tenant, service, sent, events)
    ensures MayPost(tenant, service, sent, events[k..])
  {
    var rest := events[k..];
    forall batch | IsPart(batch, rest) ensures IsPart(batch, events) {
      var i: nat :| IsPartAt(batch, rest, i);
      SliceOfSlice(events, k, i, i + |batch|);
      assert IsPartAt(batch, events, k + i);
    }
  }

  /** The first batch of a table, and what comes behind it. */
  lemma HeadAndRest(p: Pumps, service: string, sent: iset<IngestProtocol.Batch>, spool: seq<Event>, i: nat)
    returns (head: seq<Event>, rest: seq<Event>)
    requires OneIdEach(spool) && MayPost(p.tenant, service, sent, spool) && p.size > 0 && i < |spool|
    ensures spool == head + rest && 0 < |head| == Min(p.size, |spool|) && Posted(p.tenant, service, head) in sent
    ensures if i < p.size then spool[i] in head && Chunk(p.size, spool, i) == head
            else i - p.size < |rest| && rest[i - p.size] == spool[i]
                 && Chunk(p.size, spool, i) == Chunk(p.size, rest, i - p.size)
    ensures OneIdEach(rest) && MayPost(p.tenant, service, sent, rest)
  {
    var n := Min(p.size, |spool|);
    head, rest := spool[..n], spool[n..];
    assert IsPartAt(head, spool, 0);
    OneIdEachRest(spool, n);
    MayPostRest(p.tenant, service, sent, spool, n);
    assert i < p.size ==> head[i] == spool[i];
  }

  /** The pumps go through the table from its head: a batch that throws is refused. */
  lemma {:induction false} GetsThrough(p: Pumps, service: string, sent: iset<IngestProtocol.Batch>,
                                       start: Delivery.State, s: Delivery.State, i: nat)
    returns (t: Delivery.State)
    requires Run(Steps(p, sent), start, s) && s.client.loops == map[] && s.server.calls == map[]
    requires OneIdEach(s.client.spool) && MayPost(p.tenant, service, sent, s.client.spool)
    requires p.size > 0 && i < |s.client.spool| && Sendable(Chunk(p.size, s.client.spool, i))
    ensures Run(Steps(p, sent), start, t) && s.client.spool[i] in t.client.delivered
    decreases i
  {
    var head, rest := HeadAndRest(p, service, sent, s.client.spool, i);
    t := HeadGoes(p, service, sent, start, s, head, rest);
    if i >= p.size {
      t := GetsThrough(p, service, sent, start, t, i - p.size);
    }
  }

  /** From a state in which no request is in progress. */
  lemma ClearGoes(p: Pumps, service: string, sent: iset<IngestProtocol.Batch>, start: Delivery.State,
                  s: Delivery.State, k: nat, e: Event)
    returns (t: Delivery.State)
    requires Run(Steps(p, sent), start, s) && s.server.calls == map[]
    requires k <= |s.client.history| && s.client.spool == s.client.history[k..] && OneIdEach(s.client.history)
    requires MayPost(p.tenant, service, sent, s.client.history) && Clear(p.size, s.client.spool, e)
    ensures Run(Steps(p, sent), start, t) && e in t.client.delivered
  {
    var i :| 0 <= i < |s.client.spool| && s.client.spool[i] == e && Sendable(Chunk(p.size, s.client.spool, i));
    OneIdEachRest(s.client.history, k);
    MayPostRest(p.tenant, service, sent, s.client.history, k);
    var u := Go(p, sent, start, s, AtClient(SpoolProtocol.Crash));
    t := GetsThrough(p, service, sent, start, u, i);
  }

  lemma OpenGoes(p: Pumps, service: string, limit: nat, sent: iset<IngestProtocol.Batch>, s: Delivery.State, e: Event)
    returns (t: Delivery.State)
    requires Delivery.Inv(p.tenant, limit, sent, s) && MayPost(p.tenant, service, sent, s.client.history)
    requires Open(p.size, s.client, e)
    ensures Run(Steps(p, sent), s, t) && e in t.client.delivered
  {
    var c := s.client;
    Nothing(Steps(p, sent), s);
    var u := Go(p, sent, s, s, AtServer(IngestProtocol.Crash));
    if Clear(p.size, c.spool, e) {
      t := ClearGoes(p, service, sent, s, u, Gone(c), e);
    } else {
      var l :| l in c.loops && (Clear(p.size, Without(c.spool, c.loops[l].batch), e)
                                || (e in c.loops[l].batch && Hopeful(c.loops[l])));
      var k := LoopLeaves(c, c.loops[l].batch);
      MayPostBatch(p.tenant, service, sent, c, c.loops[l].batch);
      t := LoopGoes(p, service, sent, s, u, l);
      if !(e in c.loops[l].batch && Hopeful(c.loops[l])) {
        t := ClearGoes(p, service, sent, s, t, k, e);
      }
    }
  }

  /** What is left once the batch of a loop that is out is deleted. */
  lemma LoopLeaves(c: Client, batch: seq<Event>) returns (k: nat)
    requires OneIdEach(c.history) && IsSuffix(c) && BatchOk(c, batch)
    ensures k <= |c.history| && Without(c.spool, batch) == c.history[k..]
  {
    var i: nat :| Stretch(c, batch, i);
    k := Later(Gone(c), i + |batch|);
    DeletedIs(c, batch, i, Gone(c), k);
  }

  lemma MayPostBatch(tenant: string, service: string, sent: iset<IngestProtocol.Batch>, c: Client, batch: seq<Event>)
    requires BatchOk(c, batch) && MayPost(tenant, service, sent, c.history)
    ensures Posted(tenant, service, batch) in sent
  {
    var i: nat :| Stretch(c, batch, i);
    assert IsPartAt(batch, c.history, i);
  }

  /** What is spooled can still be delivered, in some run, exactly when some batch that
      the pumps come to has it and no event that throws. */
  lemma DeliverableIff(p: Pumps, service: string, limit: nat, sent: iset<IngestProtocol.Batch>, s: Delivery.State,
                       e: Event)
    requires Delivery.Inv(p.tenant, limit, sent, s) && p.cap <= limit && e in s.client.spool
    requires MayPost(p.tenant, service, sent, s.client.history)
    ensures (exists t :: Run(Steps(p, sent), s, t) && e in t.client.delivered) <==> Open(p.size, s.client, e)
  {
    if Open(p.size, s.client, e) {
      var t := OpenGoes(p, service, limit, sent, s, e);
    } else {
      var i :| 0 <= i < |s.client.spool| && s.client.spool[i] == e;
      forall t | Run(Steps(p, sent), s, t) ensures e !in t.client.delivered {
        HeldUpStays(p, limit, sent, s, t, i, i);
      }
    }
  }

  /** While no loop is out: exactly when no event throws in the stretch of the batch size
      that has it, counted from the head of the spool. */
  lemma IdleIsDeliverableIff(p: Pumps, service: string, limit: nat, sent: iset<IngestProtocol.Batch>,
                             s: Delivery.State, i: nat)
    requires Delivery.Inv(p.tenant, limit, sent, s) && p.cap <= limit && s.client.loops == map[]
    requires p.size > 0 && i < |s.client.spool| && MayPost(p.tenant, service, sent, s.client.history)
    ensures (exists t :: Run(Steps(p, sent), s, t) && s.client.spool[i] in t.client.delivered)
       <==> Sendable(Around(p.size, s.client.spool, i))
  {
    DeliverableIff(p, service, limit, sent, s, s.client.spool[i]);
    OneIdInSpool(s.client);
    ClearAt(p.size, s.client.spool, i);
  }

  /** The system does what it is for: from nothing, an event can be spooled, posted,
      stored and deleted. */
  lemma EventsAreDelivered(p: Pumps, service: string, e: Event) returns (start: Delivery.State, t: Delivery.State)
    requires e.id.Some? && Json in e.parsers && !e.stamp.Unprintable? && p.cap > 0 && p.size > 0
    ensures var sent := iset{Posted(p.tenant, service, [e])}; Delivery.Init(start) && Run(Steps(p, sent), start, t)
    ensures e in t.client.delivered && t.client.spool == [] && IngestProtocol.Has(t.server.rows, p.tenant, e)
  {
    var sent := iset{Posted(p.tenant, service, [e])};
    start := State(Client([], [], map[], {}, {}), IngestProtocol.Server(map[], {}, {}, {}, {}, 0));
    Nothing(Steps(p, sent), start);
    var s := Go(p, sent, start, start, AtClient(Enqueue(e)));
    assert s.client.spool == [e] + [];
    t := HeadGoes(p, service, sent, start, s, [e], []);
  }
}
