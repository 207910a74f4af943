/**
  The spool and what works on it (packages/transport/src/spool/): the durable queue,
  the writer with its bounded blocking, and the pump loop.
*/
module Spool {
  import opened Base
  import opened Events
  import opened SpoolProtocol

  // -------------------------------------------------------------------- the queue

  lemma {:induction false} WithoutNothing(spool: seq<Event>)
    ensures Without(spool, []) == spool
  {
    if spool != [] {
      WithoutNothing(spool[1..]);
    }
  }

  lemma HasIdSnoc(batch: seq<Event>, e: Event, id: Option<Id>)
    ensures HasId(batch + [e], id) <==> HasId(batch, id) || e.id == id
  {
    if HasId(batch, id) {
      var f :| f in batch && f.id == id;
      assert f in batch + [e];
    }
    assert e in batch + [e];
  }

  /** Deleting one id after another. */
  lemma {:induction false} WithoutSnoc(spool: seq<Event>, batch: seq<Event>, e: Event)
    ensures Without(spool, batch + [e]) == Without(Without(spool, batch), [e])
  {
    if spool != [] {
      var first, rest := spool[0], Without(spool[1..], batch);
      WithoutSnoc(spool[1..], batch, e);
      HasIdSnoc(batch, e, first.id);
      HasIdSnoc([], e, first.id);
      assert [] + [e] == [e];
      if !HasId(batch, first.id) {
        assert ([first] + rest)[1..] == rest;
      } else {
        assert [] + rest == rest;
      }
    }
  }

  class SpoolStore {
    var rows: seq<Event>

    constructor (rows: seq<Event>)
      ensures this.rows == rows
    {
      this.rows := rows;
    }

    method Insert(e: Event)
      modifies this
      ensures rows == old(rows) + [e]
    {
      rows := rows + [e];
    }

    /** What writers insert, one after another. */
    method InsertAll(events: seq<Event>)
      modifies this
      ensures rows == old(rows) + events
    {
      for i := 0 to |events|
        invariant rows == old(rows) + events[..i]
      {
        Insert(events[i]);
      }
      assert events[..|events|] == events;
    }

    method PeekOldest(n: int) returns (batch: seq<Event>)
      ensures batch <= rows && |batch| == if n <= 0 then 0 else if n <= |rows| then n else |rows|
    {
      batch := if n <= 0 then [] else if n <= |rows| then rows[..n] else rows;
    }

    /** One transaction: a statement that fails (`failsAt` of them went well) rolls
        all back. */
    method Delete(batch: seq<Event>, failsAt: nat) returns (threw: bool)
      modifies this
      ensures threw <==> failsAt < |batch|
      ensures rows == if threw then old(rows) else Without(old(rows), batch)
    {
      var begin := rows;
      WithoutNothing(rows);
      threw := false;
      for i := 0 to |batch|
        invariant !threw && i <= failsAt && rows == Without(old(rows), batch[..i])
      {
        if i == failsAt {
          rows := begin;
          return true;
        }
        assert batch[..i + 1] == batch[..i] + [batch[i]];
        WithoutSnoc(old(rows), batch[..i], batch[i]);
        rows := Without(rows, [batch[i]]);
      }
      assert batch[..|batch|] == batch;
    }
  }

  // ------------------------------------------------------------------- the writer

  function Sum(drains: seq<nat>): nat { if drains == [] then 0 else Sum(drains[..|drains| - 1]) + drains[|drains| - 1] }

  /** The first wait after which there is room, if any. */
  function FirstRoom(count: nat, cap: nat, drains: seq<nat>): (i: nat)
    ensures i <= |drains|
    ensures forall j :: 1 <= j <= i ==> count - Sum(drains[..j]) >= cap
    ensures i < |drains| ==> count - Sum(drains[..i + 1]) < cap
    decreases |drains|
  {
    if drains == [] then 0
    else
      var most := drains[..|drains| - 1];
      var i := FirstRoom(count, cap, most);
      assert forall j :: 0 <= j <= |most| ==> most[..j] == drains[..j];
      assert drains[..|drains|] == drains;
      if i < |most| then i else if count - Sum(drains) < cap then |most| else |drains|
  }

  class SpoolWriter {
    const spool: SpoolStore
    const cap: nat
    var dropped: seq<Event>   // what was reported dropped

    constructor (spool: SpoolStore, cap: nat)
      ensures this.spool == spool && this.cap == cap && dropped == []
    {
      this.spool, this.cap, dropped := spool, cap, [];
    }

    /** What the pump deletes during one wait. */
    method Wait(drained: nat)
      requires drained <= |spool.rows|
      modifies spool
      ensures spool.rows == old(spool.rows)[drained..]
    {
      spool.rows := spool.rows[drained..];
    }

    /** `drains`: how many of the oldest events the pump deletes during each wait that
        starts before the deadline. The event is spooled at once or after the first
        wait that leaves room, and else dropped and reported; the spool never grows
        beyond the cap by it. */
    method Enqueue(e: Event, drains: seq<nat>) returns (spooled: bool)
      requires Sum(drains) <= |spool.rows|
      modifies this, spool
      ensures spooled <==> |old(spool.rows)| < cap || FirstRoom(|old(spool.rows)|, cap, drains) < |drains|
      ensures dropped == old(dropped) + if spooled then [] else [e]
      ensures var waits := if |old(spool.rows)| < cap then 0
                           else if spooled then FirstRoom(|old(spool.rows)|, cap, drains) + 1 else |drains|;
              Sum(drains[..waits]) <= |old(spool.rows)|
              && spool.rows == old(spool.rows)[Sum(drains[..waits])..] + if spooled then [e] else []
      ensures |spool.rows| <= if cap > |old(spool.rows)| then cap else |old(spool.rows)|
    {
      if |spool.rows| < cap {
        spool.Insert(e);
        return true;
      }
      ghost var count := |spool.rows|;
      assert drains[..0] == [];
      for i := 0 to |drains|
        invariant Sum(drains[..i]) <= count == |old(spool.rows)| && spool.rows == old(spool.rows)[Sum(drains[..i])..]
        invariant i <= FirstRoom(count, cap, drains) && dropped == old(dropped)
      {
        SumSnoc(drains, i);
        SumGrows(drains, i + 1);
        DropTwice(old(spool.rows), Sum(drains[..i]), drains[i]);
        Wait(drains[i]);
        if |spool.rows| < cap {
          spool.Insert(e);
          return true;
        }
      }
      assert drains[..|drains|] == drains;
      dropped := dropped + [e];
      spooled := false;
    }
  }

  lemma SumSnoc(drains: seq<nat>, i: nat)
    requires i < |drains|
    ensures Sum(drains[..i + 1]) == Sum(drains[..i]) + drains[i]
  {
    assert drains[..i + 1][..i] == drains[..i];
  }

  lemma DropTwice<T>(rows: seq<T>, m: nat, n: nat)
    requires m + n <= |rows|
    ensures rows[m..][n..] == rows[m + n..]
  {
  }

  lemma {:induction false} SumGrows(drains: seq<nat>, i: nat)
    requires i <= |drains|
    ensures Sum(drains[..i]) <= Sum(drains)
    decreases |drains|
  {
    if i == |drains| {
      assert drains[..i] == drains;
    } else {
      assert drains[..|drains| - 1][..i] == drains[..i];
      SumGrows(drains[..|drains| - 1], i);
    }
  }

  // --------------------------------------------------------------------- the pump

  datatype Reply = Status(code: nat) | NoReply   // no reply: network error, timeout, abort

  datatype Outcome = Ok | Retry | Unrecoverable

  /** 2xx is delivered; 429 and 5xx are transient, as is anything unexpected; any other
      4xx is final. */
  function OutcomeOf(reply: Reply): Outcome {
    if reply.NoReply? then Retry
    else if 200 <= reply.code < 300 then Ok
    else if reply.code == 429 || reply.code >= 500 then Retry
    else if reply.code >= 400 then Unrecoverable
    else Retry
  }

  /** One turn of the loop: the reply to its POST, the events that writers spooled
      while it waited, and whether it was stopped meanwhile. */
  datatype Turn = Turn(reply: Reply, arrivals: seq<Event>, stopped: bool)

  /** The table, what was deleted (in order), what of it was reported, and the backoff. */
  datatype Progress = Progress(rows: seq<Event>, gone: seq<Event>, reported: seq<Event>, backoffMs: nat)

  datatype Config = Config(batchSize: nat, initialBackoffMs: nat, maxBackoffMs: nat)

  function NextBackoff(config: Config, backoffMs: nat): nat {
    if backoffMs == 0 then config.initialBackoffMs else Min(backoffMs * 2, config.maxBackoffMs)
  }

  /** What is peeked, and sent if there is any. */
  function Peeked(config: Config, p: Progress): seq<Event> { p.rows[..Min(config.batchSize, |p.rows|)] }

  function AfterTurn(config: Config, p: Progress, turn: Turn): Progress {
    var batch, rows := Peeked(config, p), p.rows + turn.arrivals;
    if batch == [] || turn.stopped then p.(rows := rows)
    else if OutcomeOf(turn.reply) == Retry then p.(rows := rows, backoffMs := NextBackoff(config, p.backoffMs))
    else Progress(rows[|batch|..], p.gone + batch,
                  if OutcomeOf(turn.reply) == Unrecoverable then p.reported + batch else p.reported, 0)
  }

  function AfterTurns(config: Config, p: Progress, turns: seq<Turn>): Progress {
    if turns == [] then p else AfterTurn(config, AfterTurns(config, p, turns[..|turns| - 1]), turns[|turns| - 1])
  }

  function Arrivals(turns: seq<Turn>): seq<Event> {
    if turns == [] then [] else Arrivals(turns[..|turns| - 1]) + turns[|turns| - 1].arrivals
  }

  /** A batch leaves the spool on a 2xx and on a 4xx other than 429, with a report on
      the latter. After 429, a 5xx, any other code or no reply at all the spool keeps
      every event and the backoff grows. */
  lemma TurnIsByCode(config: Config, p: Progress, turn: Turn)
    requires Peeked(config, p) != [] && !turn.stopped
    ensures turn.reply.Status? && 200 <= turn.reply.code <= 299
            ==> AfterTurn(config, p, turn) ==
                Progress(p.rows[|Peeked(config, p)|..] + turn.arrivals, p.gone + Peeked(config, p), p.reported, 0)
    ensures turn.reply.Status? && 400 <= turn.reply.code <= 499 && turn.reply.code != 429
            ==> AfterTurn(config, p, turn) ==
                Progress(p.rows[|Peeked(config, p)|..] + turn.arrivals, p.gone + Peeked(config, p),
                         p.reported + Peeked(config, p), 0)
    ensures turn.reply.NoReply? || turn.reply.code < 200 || 300 <= turn.reply.code < 400 || turn.reply.code == 429
                || 500 <= turn.reply.code
            ==> AfterTurn(config, p, turn) ==
                Progress(p.rows + turn.arrivals, p.gone, p.reported,
                         if p.backoffMs == 0 then config.initialBackoffMs
                         else if p.backoffMs * 2 < config.maxBackoffMs then p.backoffMs * 2 else config.maxBackoffMs)
  {
    var batch := Peeked(config, p);
    assert (p.rows + turn.arrivals)[|batch|..] == p.rows[|batch|..] + turn.arrivals;
  }

  predicate Coded(reply: Reply, low: nat, high: nat) { reply.Status? && low <= reply.code <= high }

  predicate Rejects(reply: Reply) { Coded(reply, 400, 428) || Coded(reply, 430, 499) }

  /** The event was in the batch of the turn, which got a 4xx other than 429, or that or
      a 2xx, before any stop. */
  predicate GotCodeIn(config: Config, p: Progress, turns: seq<Turn>, i: nat, e: Event, orTaken: bool) {
    && i < |turns| && !turns[i].stopped && e in Peeked(config, AfterTurns(config, p, turns[..i]))
    && (Rejects(turns[i].reply) || (orTaken && Coded(turns[i].reply, 200, 299)))
  }

  predicate GotCode(config: Config, p: Progress, turns: seq<Turn>, e: Event, orTaken: bool) {
    exists i: nat :: i < |turns| && GotCodeIn(config, p, turns, i, e, orTaken)
  }

  lemma GotCodeSooner(config: Config, p: Progress, turns: seq<Turn>, most: seq<Turn>, i: nat, e: Event, orTaken: bool)
    requires most <= turns && i < |most|
    ensures GotCodeIn(config, p, most, i, e, orTaken) == GotCodeIn(config, p, turns, i, e, orTaken)
  {
    assert most[..i] == turns[..i];
  }

  lemma GotCodeSnoc(config: Config, p: Progress, turns: seq<Turn>, most: seq<Turn>, n: nat, e: Event, orTaken: bool)
    requires n + 1 == |turns| && |most| == n && most <= turns
    ensures GotCode(config, p, turns, e, orTaken)
            <==> GotCode(config, p, most, e, orTaken) || GotCodeIn(config, p, turns, n, e, orTaken)
  {
    forall i: nat | i < n
      ensures GotCodeIn(config, p, most, i, e, orTaken) == GotCodeIn(config, p, turns, i, e, orTaken)
    {
      GotCodeSooner(config, p, turns, most, i, e, orTaken);
    }
  }

  lemma TurnReportsIff(config: Config, p: Progress, turn: Turn, e: Event)
    ensures var sent, q := !turn.stopped && e in Peeked(config, p), AfterTurn(config, p, turn);
            && (e in q.reported <==> e in p.reported || (sent && Rejects(turn.reply)))
            && (e in q.gone <==> e in p.gone || (sent && (Rejects(turn.reply) || Coded(turn.reply, 200, 299))))
  {
    if Peeked(config, p) != [] && !turn.stopped {
      TurnIsByCode(config, p, turn);
    }
  }

  /** Over any turns: an event is reported if and only if a batch with it got a 4xx
      other than 429, and deleted if and only if one got that or a 2xx. */
  lemma {:induction false} ReportedIff(config: Config, p: Progress, turns: seq<Turn>, e: Event)
    requires p.gone == [] && p.reported == []
    ensures e in AfterTurns(config, p, turns).reported <==> GotCode(config, p, turns, e, false)
    ensures e in AfterTurns(config, p, turns).gone <==> GotCode(config, p, turns, e, true)
  {
    if turns != [] {
      var n := |turns| - 1;
      ReportedIff(config, p, turns[..n], e);
      TurnReportsIff(config, AfterTurns(config, p, turns[..n]), turns[n], e);
      GotCodeSnoc(config, p, turns, turns[..n], n, e, false);
      GotCodeSnoc(config, p, turns, turns[..n], n, e, true);
    }
  }

  /** What is gone and what is left is what there was and what arrived, in order;
      what is reported is gone. */
  lemma {:induction false} TurnsConserve(config: Config, rows: seq<Event>, backoffMs: nat, turns: seq<Turn>)
    ensures var p := AfterTurns(config, Progress(rows, [], [], backoffMs), turns);
            p.gone + p.rows == rows + Arrivals(turns) && forall e :: e in p.reported ==> e in p.gone
  {
    var start := Progress(rows, [], [], backoffMs);
    if turns == [] {
      assert [] + rows == rows + [];
    } else {
      var most, last := turns[..|turns| - 1], turns[|turns| - 1];
      TurnsConserve(config, rows, backoffMs, most);
      TurnConserves(config, AfterTurns(config, start, most), last);
      assert rows + Arrivals(turns) == (rows + Arrivals(most)) + last.arrivals;
    }
  }

  lemma TurnConserves(config: Config, p: Progress, turn: Turn)
    ensures var q := AfterTurn(config, p, turn); q.gone + q.rows == (p.gone + p.rows) + turn.arrivals
    ensures (forall e :: e in p.reported ==> e in p.gone)
            ==> var q := AfterTurn(config, p, turn); forall e :: e in q.reported ==> e in q.gone
  {
    var n := Min(config.batchSize, |p.rows|);
    Moved(p.gone, p.rows, turn.arrivals, n);
    Moved(p.gone, p.rows, turn.arrivals, 0);
    assert p.gone + p.rows[..0] == p.gone && (p.rows + turn.arrivals)[0..] == p.rows + turn.arrivals;
  }

  lemma Moved(gone: seq<Event>, rows: seq<Event>, arrivals: seq<Event>, n: nat)
    requires n <= |rows|
    ensures (gone + rows[..n]) + (rows + arrivals)[n..] == (gone + rows) + arrivals
  {
  }

  function Doubled(ms: nat, n: nat): nat { if n == 0 then ms else 2 * Doubled(ms, n - 1) }

  function Failing(config: Config, k: nat): nat { if k == 0 then 0 else NextBackoff(config, Failing(config, k - 1)) }

  /** The backoff after `k` transient outcomes in a row: doubled each time, and from
      the second on (not before) no more than the maximum. */
  lemma {:induction false} BackoffDoubles(config: Config, k: nat)
    requires k > 0 && config.initialBackoffMs > 0 && config.maxBackoffMs > 0
    ensures Failing(config, k) == if k == 1 then config.initialBackoffMs
                                  else Min(Doubled(config.initialBackoffMs, k - 1), config.maxBackoffMs)
    ensures Failing(config, k) > 0
    ensures Doubled(config.initialBackoffMs, k - 1) > 0
  {
    if k > 1 {
      BackoffDoubles(config, k - 1);
    }
  }

  lemma {:induction false} WithoutHead(rows: seq<Event>, n: nat)
    requires OneIdEach(rows) && n <= |rows|
    ensures Without(rows, rows[..n]) == rows[n..]
  {
    forall p {:trigger rows[p]} | 0 <= p < |rows| ensures HasId(rows[..n], rows[p].id) <==> p < n {
      assert p < n ==> rows[..n][p] in rows[..n];
      assert forall q :: 0 <= q < n ==> rows[..n][q] == rows[q];
    }
    WithoutPrefix(rows, 0, n, rows[..n]);
    assert rows[0..] == rows;
  }

  /** What was peeked is still at the head when more have arrived. */
  lemma HeadStays(rows: seq<Event>, arrivals: seq<Event>, n: nat, batch: seq<Event>)
    requires n <= |rows| && batch == rows[..n]
    ensures batch == (rows + arrivals)[..n]
  {
  }

  lemma WithoutBatch(rows: seq<Event>, batch: seq<Event>)
    requires OneIdEach(rows) && |batch| <= |rows| && batch == rows[..|batch|]
    ensures Without(rows, batch) == rows[|batch|..]
  {
    WithoutHead(rows, |batch|);
  }

  class Pump {
    const spool: SpoolStore
    const config: Config
    var running: bool
    var backoffMs: nat
    var reported: seq<Event>
    ghost var gone: seq<Event>

    constructor (spool: SpoolStore, config: Config)
      ensures this.spool == spool && this.config == config && !running && backoffMs == 0
      ensures reported == [] && gone == []
    {
      this.spool, this.config, running, backoffMs, reported := spool, config, false, 0, [];
      gone := [];
    }

    ghost function State(): Progress
      reads this, spool
    {
      Progress(spool.rows, gone, reported, backoffMs)
    }

    /** One turn of the loop. */
    method TakeTurn(turn: Turn)
      requires OneIdEach(spool.rows + turn.arrivals)
      modifies this`backoffMs, this`reported, this`gone, this`running, spool
      ensures State() == AfterTurn(config, old(State()), turn)
      ensures running == (old(running) && !turn.stopped)
    {
      var batch := spool.PeekOldest(config.batchSize);
      ghost var before := spool.rows;
      HeadStays(before, turn.arrivals, Min(config.batchSize, |before|), batch);
      spool.InsertAll(turn.arrivals);
      running := running && !turn.stopped;
      if |batch| == 0 || turn.stopped {
        return;
      }
      var outcome := OutcomeOf(turn.reply);
      if outcome == Retry {
        backoffMs := NextBackoff(config, backoffMs);
        return;
      }
      if outcome == Unrecoverable {
        reported := reported + batch;
      }
      WithoutBatch(spool.rows, batch);
      var _ := spool.Delete(batch, |batch|);
      gone := gone + batch;
      backoffMs := 0;
    }

    /** The loop, over as many turns as `turns` tells of. */
    method Run(turns: seq<Turn>) returns (taken: nat)
      requires OneIdEach(spool.rows + Arrivals(turns)) && gone == [] && reported == [] && running
      modifies this`backoffMs, this`reported, this`gone, this`running, spool
      ensures taken <= |turns| && (running ==> taken == |turns|)
      ensures State() == AfterTurns(config, old(State()), turns[..taken])
      ensures gone + spool.rows == old(spool.rows) + Arrivals(turns[..taken])
      ensures forall e :: e in reported <==> GotCode(config, old(State()), turns[..taken], e, false)
    {
      taken := 0;
      ghost var start := State();
      while running && taken < |turns|
        invariant taken <= |turns| && State() == AfterTurns(config, start, turns[..taken])
      {
        TurnsConserve(config, start.rows, start.backoffMs, turns[..taken]);
        ArrivalsSoFar(turns, taken);
        assert gone + (spool.rows + turns[taken].arrivals) == (gone + spool.rows) + turns[taken].arrivals;
        LeftIsDistinct(start.rows, Arrivals(turns[..taken]), turns[taken].arrivals, Arrivals(turns), gone,
            spool.rows + turns[taken].arrivals);
        assert turns[..taken + 1][..taken] == turns[..taken];
        TakeTurn(turns[taken]);
        taken := taken + 1;
      }
      TurnsConserve(config, start.rows, start.backoffMs, turns[..taken]);
      forall e ensures e in reported <==> GotCode(config, start, turns[..taken], e, false) {
        ReportedIff(config, start, turns[..taken], e);
      }
    }
  }

  lemma {:induction false} ArrivalsSoFar(turns: seq<Turn>, i: nat)
    requires i < |turns|
    ensures Arrivals(turns[..i]) + turns[i].arrivals <= Arrivals(turns)
    decreases |turns|
  {
    if i == |turns| - 1 {
    } else {
      var most := turns[..|turns| - 1];
      assert most[..i] == turns[..i];
      ArrivalsSoFar(most, i);
    }
  }

  lemma LeftIsDistinct(rows: seq<Event>, some: seq<Event>, more: seq<Event>, all: seq<Event>, gone: seq<Event>,
        left: seq<Event>)
    requires OneIdEach(rows + all) && some + more <= all && gone + left == (rows + some) + more
    ensures OneIdEach(left)
  {
    Regroup(rows, some, more, all);
    PartIsDistinct(rows + all, gone, left);
  }

  lemma Regroup(rows: seq<Event>, some: seq<Event>, more: seq<Event>, all: seq<Event>)
    requires some + more <= all
    ensures (rows + some) + more <= rows + all
  {
    assert (rows + some) + more == rows + (some + more);
  }

  lemma PartIsDistinct(all: seq<Event>, gone: seq<Event>, left: seq<Event>)
    requires OneIdEach(all) && gone + left <= all
    ensures OneIdEach(left)
  {
    forall x, y | 0 <= x < y < |left| ensures left[x].id != left[y].id {
      assert (gone + left)[|gone| + x] == left[x] && (gone + left)[|gone| + y] == left[y];
    }
  }
}
