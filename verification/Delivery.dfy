/**
  Durable delivery end to end: the spool with its writers and pump loops, POSTing to
  the ingest service, which other callers use as well. The pumps of one spool belong to
  one tenant; each has a service of its own.
*/
module Delivery {
  import opened Base
  import opened Events
  import opened Runs
  import SpoolProtocol
  import IngestProtocol

  datatype State = State(client: SpoolProtocol.Client, server: IngestProtocol.Server)

  /** A client step; or a server step, the arrival of a POST of this client among them. */
  datatype Step = AtClient(c: SpoolProtocol.Step) | AtServer(v: IngestProtocol.Step)

  /** What a pump posts: its service, no forbidden names, and the digest of the ids. */
  function Posted(tenant: string, service: string, batch: seq<Event>): IngestProtocol.Batch {
    IngestProtocol.Batch(tenant, batch, Some(IngestProtocol.Digest(multiset(Ids(batch)))), Options(Json, service, {}))
  }

  /** A batch that some pump posted is among the answers. */
  ghost predicate Answered(answers: set<IngestProtocol.Batch>, tenant: string, batch: seq<Event>) {
    exists service :: Posted(tenant, service, batch) in answers
  }

  /** A loop learns of a 2xx or an unrecoverable 4xx only when its batch got one. Every
      other outcome (a 5xx, a timeout, a lost reply) makes it leave. */
  ghost predicate Enabled(tenant: string, cap: nat, sent: iset<IngestProtocol.Batch>, s: State, step: Step) {
    match step
    case AtServer(v) => IngestProtocol.Enabled(sent, s.server, v)
    case AtClient(c) =>
      && SpoolProtocol.Enabled(cap, s.client, c)
      && (c.Learn?
          ==> Answered(if c.ok then s.server.acked else s.server.refused, tenant, s.client.loops[c.loop].batch))
  }

  ghost function Next(tenant: string, cap: nat, sent: iset<IngestProtocol.Batch>, s: State, step: Step): State
    requires Enabled(tenant, cap, sent, s, step)
  {
    match step
    case AtServer(v) => s.(server := IngestProtocol.Next(sent, s.server, v))
    case AtClient(c) => s.(client := SpoolProtocol.Next(cap, s.client, c))
  }

  // -------------------------------------------------------------------- invariant

  /** An acknowledged batch that some pump posted has the event. */
  ghost predicate PostAcked(acked: set<IngestProtocol.Batch>, tenant: string, e: Event) {
    exists service, batch :: e in batch && Posted(tenant, service, batch) in acked
  }

  /** What ties the two sides together. */
  ghost predicate Tied(tenant: string, s: State) {
    && (forall l :: l in s.client.loops && s.client.loops[l].Settled? && s.client.loops[l].ok
                    ==> Answered(s.server.acked, tenant, s.client.loops[l].batch))
    && (forall e :: e in s.client.delivered ==> PostAcked(s.server.acked, tenant, e))
  }

  ghost predicate Inv(tenant: string, limit: nat, sent: iset<IngestProtocol.Batch>, s: State) {
    SpoolProtocol.Inv(limit, s.client) && IngestProtocol.Inv(sent, s.server) && Tied(tenant, s)
  }

  lemma ServerKeepsTied(tenant: string, sent: iset<IngestProtocol.Batch>, s: State, v: IngestProtocol.Step)
    requires Tied(tenant, s) && IngestProtocol.Enabled(sent, s.server, v)
    ensures Tied(tenant, s.(server := IngestProtocol.Next(sent, s.server, v)))
  {
    var t := s.(server := IngestProtocol.Next(sent, s.server, v));
    assert s.server.acked <= t.server.acked;
    forall e | e in t.client.delivered ensures PostAcked(t.server.acked, tenant, e) {
      assert PostAcked(s.server.acked, tenant, e);
    }
    forall l | l in t.client.loops && t.client.loops[l].Settled? && t.client.loops[l].ok
      ensures Answered(t.server.acked, tenant, t.client.loops[l].batch)
    {
      assert Answered(s.server.acked, tenant, s.client.loops[l].batch);
    }
  }

  lemma ClientKeepsTied(tenant: string, cap: nat, sent: iset<IngestProtocol.Batch>, s: State, c: SpoolProtocol.Step)
    requires Tied(tenant, s) && Enabled(tenant, cap, sent, s, AtClient(c))
    ensures Tied(tenant, Next(tenant, cap, sent, s, AtClient(c)))
  {
    var t := Next(tenant, cap, sent, s, AtClient(c));
    forall e | e in t.client.delivered ensures PostAcked(t.server.acked, tenant, e) {
      if e !in s.client.delivered {
        assert Answered(s.server.acked, tenant, s.client.loops[c.loop].batch);
      }
    }
  }

  lemma StepKeepsInv(tenant: string, limit: nat, cap: nat, sent: iset<IngestProtocol.Batch>, s: State, step: Step)
    requires Inv(tenant, limit, sent, s) && cap <= limit && Enabled(tenant, cap, sent, s, step)
    ensures Inv(tenant, limit, sent, Next(tenant, cap, sent, s, step))
  {
    match step
    case AtServer(v) =>
      IngestProtocol.StepKeepsInv(sent, s.server, v);
      ServerKeepsTied(tenant, sent, s, v);
    case AtClient(c) =>
      SpoolProtocol.StepKeepsInv(limit, cap, s.client, c);
      ClientKeepsTied(tenant, cap, sent, s, c);
  }

  // ------------------------------------------------------------------------- runs

  ghost predicate Moves(tenant: string, cap: nat, sent: iset<IngestProtocol.Batch>, s: State, t: State) {
    exists step :: Enabled(tenant, cap, sent, s, step) && t == Next(tenant, cap, sent, s, step)
  }

  ghost function Steps(tenant: string, cap: nat, sent: iset<IngestProtocol.Batch>): (State, State) -> bool {
    (s, t) => Moves(tenant, cap, sent, s, t)
  }

  /** A spool with what an earlier process left in it, and an empty server. */
  ghost predicate Init(s: State) { SpoolProtocol.Init(s.client) && IngestProtocol.Idle(s.server) }

  lemma MoveKeepsInv(tenant: string, limit: nat, cap: nat, sent: iset<IngestProtocol.Batch>, s: State, t: State)
    requires Inv(tenant, limit, sent, s) && cap <= limit && Moves(tenant, cap, sent, s, t)
    ensures Inv(tenant, limit, sent, t) && s.server.strictest <= t.server.strictest
  {
    var step :| Enabled(tenant, cap, sent, s, step) && t == Next(tenant, cap, sent, s, step);
    StepKeepsInv(tenant, limit, cap, sent, s, step);
  }

  lemma RunKeepsInvOn(tenant: string, cap: nat, limit: nat, sent: iset<IngestProtocol.Batch>, s: State, t: State)
    requires Inv(tenant, limit, sent, s) && cap <= limit && Run(Steps(tenant, cap, sent), s, t)
    ensures Inv(tenant, limit, sent, t) && s.server.strictest <= t.server.strictest
  {
    var steps := Steps(tenant, cap, sent);
    var inv := u => Inv(tenant, limit, sent, u) && s.server.strictest <= u.server.strictest;
    forall a, b {:trigger steps(a, b)} | inv(a) && steps(a, b) ensures inv(b) {
      MoveKeepsInv(tenant, limit, cap, sent, a, b);
    }
    RunKeeps(steps, inv, s, t);
  }

  lemma RunKeepsInv(tenant: string, cap: nat, sent: iset<IngestProtocol.Batch>, start: State, s: State)
    requires Init(start) && Run(Steps(tenant, cap, sent), start, s)
    ensures Inv(tenant, SpoolProtocol.Limit(cap, start.client), sent, s)
    ensures start.server.strictest <= s.server.strictest
  {
    RunKeepsInvOn(tenant, cap, SpoolProtocol.Limit(cap, start.client), sent, start, s);
  }

  /** The keys of the rows that are stored under an id. */
  function KeysOf(rows: set<Row>, tenant: string, id: Id): set<OrderKey> {
    set r | r in rows && r.key.tenant == tenant && r.key.id == Given(id) :: r.key
  }

  /** What is sent under one id is one event, that fixes its key, and that no batch under
      the key of a batch which has it can hide. */
  ghost predicate Sheltered(sent: iset<IngestProtocol.Batch>, strictest: Severity, tenant: string, e: Event) {
    && IngestProtocol.Fixed(sent, tenant, e) && IngestProtocol.AllSafe(sent, strictest, tenant, e)
    && forall b, f :: b in sent && b.tenant == tenant && f in b.events && f.id == e.id ==> f == e
  }

  /** Exactly once, over every run of retries, overlapping batches, lost replies,
      expiry, eviction, concurrent duplicates and crashes: of an event of any caller that
      is sheltered there is at most one row once the table has collapsed, and exactly
      one, which is its own, when any batch with it was acknowledged that let it pass. */
  lemma ExactlyOnce(tenant: string, cap: nat, sent: iset<IngestProtocol.Batch>, start: State, s: State,
                    owner: string, e: Event)
    requires Init(start) && Run(Steps(tenant, cap, sent), start, s)
    requires e.id.Some? && Sheltered(sent, start.server.strictest, owner, e)
    ensures |KeysOf(s.server.rows, owner, e.id.value)| <= 1
    ensures IngestProtocol.Acked(s.server, owner, e)
            ==> exists r :: r in s.server.rows && r.event == e && KeysOf(s.server.rows, owner, e.id.value) == {r.key}
    ensures forall r :: r in s.server.rows && r.key.tenant == owner && r.key.id == Given(e.id.value) ==> r.event == e
  {
    RunKeepsInv(tenant, cap, sent, start, s);
    IngestProtocol.FixedIsOneKey(sent, s.server, owner, e);
    RowsOfId(sent, s.server, owner, e);
    var keys := KeysOf(s.server.rows, owner, e.id.value);
    if r :| r in s.server.rows && r.key.tenant == owner && r.key.id == Given(e.id.value) {
      assert keys == {r.key};
    } else {
      assert keys == {};
    }
    if IngestProtocol.Acked(s.server, owner, e) {
      AckedIsThere(sent, start.server.strictest, s.server, owner, e);
    }
  }

  /** Rows that are stored under the event's id are of the event. */
  lemma RowsOfId(sent: iset<IngestProtocol.Batch>, v: IngestProtocol.Server, tenant: string, e: Event)
    requires IngestProtocol.Inv(sent, v) && e.id.Some?
    requires forall b, f :: b in sent && b.tenant == tenant && f in b.events && f.id == e.id ==> f == e
    ensures forall r :: r in v.rows && r.key.tenant == tenant && r.key.id == Given(e.id.value) ==> r.event == e
  {
    forall r | r in v.rows && r.key.tenant == tenant && r.key.id == Given(e.id.value) ensures r.event == e {
      assert IngestProtocol.RowOk(sent, r);
    }
  }

  lemma AckedIsThere(sent: iset<IngestProtocol.Batch>, strictest: Severity, v: IngestProtocol.Server,
                     tenant: string, e: Event)
    requires IngestProtocol.Inv(sent, v) && strictest <= v.strictest && IngestProtocol.Acked(v, tenant, e)
    requires IngestProtocol.AllSafe(sent, strictest, tenant, e)
    ensures IngestProtocol.Has(v.rows, tenant, e)
    ensures e.id.Some?
            ==> exists r :: r in v.rows && r.event == e && r.key.tenant == tenant && r.key.id == Given(e.id.value)
  {
    var b :| b in v.acked && b.tenant == tenant && IngestProtocol.Kept(b, e, v.strictest);
    assert IngestProtocol.AckedOk(sent, v, b);
    IngestProtocol.AckedIsStored(sent, v, b, e);
    var r :| r in v.rows && r.key.tenant == tenant && r.event == e;
    assert IngestProtocol.RowOk(sent, r);
  }

  /** An event with an id and a time is sheltered where ids agree, and all batches of the
      tenant carry the same options and digests for keys, as those of one pump do. */
  lemma AlikeIsSheltered(sent: iset<IngestProtocol.Batch>, start: IngestProtocol.Server, tenant: string, o: Options,
                         e: Event)
    requires IngestProtocol.Idle(start) && IngestProtocol.Agree(sent) && IngestProtocol.Alike(sent, tenant, o)
    requires e.id.Some? && e.stamp != Absent && exists b :: b in sent && b.tenant == tenant && e in b.events
    ensures Sheltered(sent, start.strictest, tenant, e)
  {
    IngestProtocol.AlikeIsOnce(sent, start, tenant, o, e);
  }

  /** The level that every pump's batches read off an event. */
  predicate PumpKeeps(e: Event, gate: Severity) {
    Json in e.parsers && SeverityOf(LevelOf(Options(Json, "", {}), e)) >= gate
  }

  /** Nothing is lost between the spool and the table: an event that was spooled, and
      that parses and passes and cannot be hidden, is in the spool, in the table, or
      reported. */
  lemma NothingIsLost(tenant: string, cap: nat, sent: iset<IngestProtocol.Batch>, start: State, s: State, e: Event)
    requires Init(start) && Run(Steps(tenant, cap, sent), start, s) && e in s.client.history
    requires PumpKeeps(e, s.server.strictest)
    requires IngestProtocol.AllSafe(sent, start.server.strictest, tenant, e)
    ensures e in s.client.spool || IngestProtocol.Has(s.server.rows, tenant, e) || e in s.client.reported
  {
    RunKeepsInv(tenant, cap, sent, start, s);
    if e in s.client.delivered {
      var service, batch :| e in batch && Posted(tenant, service, batch) in s.server.acked;
      LevelIsOwn(service, e);
      assert IngestProtocol.Kept(Posted(tenant, service, batch), e, s.server.strictest);
      AckedIsThere(sent, start.server.strictest, s.server, tenant, e);
    }
  }

  lemma LevelIsOwn(service: string, e: Event)
    ensures LevelOf(Options(Json, service, {}), e) == LevelOf(Options(Json, "", {}), e)
  {
  }

  // ------------------------------------------------------ events that cannot be sent

  /** A pump's batch with this event throws: it parses and its time cannot be printed. */
  predicate Stuck(e: Event) { Json in e.parsers && e.stamp.Unprintable? }

  /** Such an event fails every call it is in: it is never delivered. Unless the server
      refuses it, it stays in the spool, and so does every event that was spooled after
      it, for as long as the run goes on. */
  lemma UnprintableIsStuck(tenant: string, cap: nat, sent: iset<IngestProtocol.Batch>, start: State, s: State,
                           i: nat, j: nat)
    requires Init(start) && Run(Steps(tenant, cap, sent), start, s) && i <= j < |s.client.history|
    requires Stuck(s.client.history[i])
    ensures s.client.history[i] !in s.client.delivered
    ensures s.client.history[i] !in s.client.reported ==> s.client.history[j] in s.client.spool
  {
    var c, e := s.client, s.client.history[i];
    RunKeepsInv(tenant, cap, sent, start, s);
    StuckIsNotDelivered(tenant, sent, s, e);
    assert SpoolProtocol.Accounted(c) && SpoolProtocol.IsSuffix(c) && e in c.history;
    if e !in c.reported {
      SuffixHasLater(c, i, j);
    }
  }

  lemma StuckIsNotAcked(tenant: string, sent: iset<IngestProtocol.Batch>, v: IngestProtocol.Server, e: Event,
                        b: IngestProtocol.Batch)
    requires IngestProtocol.Inv(sent, v) && Stuck(e) && e in b.events && b.options.parser == Json
    ensures b !in v.acked
  {
    assert Parses(b.options, e) && IngestProtocol.Throws(b);
    assert b in v.acked ==> IngestProtocol.AckedOk(sent, v, b);
  }

  lemma StuckIsNotDelivered(tenant: string, sent: iset<IngestProtocol.Batch>, s: State, e: Event)
    requires IngestProtocol.Inv(sent, s.server) && Tied(tenant, s) && Stuck(e)
    ensures e !in s.client.delivered
  {
    forall service, batch | e in batch ensures Posted(tenant, service, batch) !in s.server.acked {
      StuckIsNotAcked(tenant, sent, s.server, e, Posted(tenant, service, batch));
    }
    assert !PostAcked(s.server.acked, tenant, e);
  }

  lemma SuffixHasLater(c: SpoolProtocol.Client, i: nat, j: nat)
    requires SpoolProtocol.IsSuffix(c) && SpoolProtocol.OneIdEach(c.history) && i <= j < |c.history|
    requires c.history[i] in c.spool
    ensures c.history[j] in c.spool
  {
    var g := |c.history| - |c.spool|;
    var k :| 0 <= k < |c.spool| && c.spool[k] == c.history[i];
    assert c.history[g + k] == c.history[i];
    assert c.spool[j - g] == c.history[j];
  }
}
