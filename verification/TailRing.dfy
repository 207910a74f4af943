/**
  The ring buffer behind live tail (services/api/src/tail/buffer.ts): one tenant's
  ring, and what a client sees that polls it with the cursor it got last.
*/
module TailRing {
  import opened Base

  datatype TailEvent = TailEvent(number: nat, timestamp: int, text: string)

  datatype Result = Result(events: seq<TailEvent>, cursor: nat, gap: bool, missedEstimate: nat)

  // ---------------------------------------------------------------- the view of a poll

  /** The matching events after position `from`, oldest first, at most `limit`. */
  function Matching(all: seq<TailEvent>, from: nat, matches: TailEvent -> bool, limit: nat): (out: seq<TailEvent>)
    ensures |out| <= limit
    decreases |all| - from
  {
    if from >= |all| || limit == 0 then []
    else if matches(all[from]) then [all[from]] + Matching(all, from + 1, matches, limit - 1)
    else Matching(all, from + 1, matches, limit)
  }

  /** The same, by a scan that passes over what the cursor covers. */
  function Scan(all: seq<TailEvent>, pos: nat, afterSeq: nat, matches: TailEvent -> bool, limit: nat): seq<TailEvent>
    decreases |all| - pos
  {
    if pos >= |all| || limit == 0 then []
    else if all[pos].number > afterSeq && matches(all[pos])
        then [all[pos]] + Scan(all, pos + 1, afterSeq, matches, limit - 1)
    else Scan(all, pos + 1, afterSeq, matches, limit)
  }

  lemma {:induction false} ScanIsMatching(all: seq<TailEvent>, pos: nat, afterSeq: nat, matches: TailEvent -> bool,
        limit: nat)
    requires Numbered(all)
    ensures Scan(all, pos, afterSeq, matches, limit)
            == Matching(all, if pos < afterSeq then afterSeq else pos, matches, limit)
    decreases |all| - pos
  {
    if pos < |all| && limit > 0 {
      ScanIsMatching(all, pos + 1, afterSeq, matches, limit);
      ScanIsMatching(all, pos + 1, afterSeq, matches, limit - 1);
    }
  }

  /** The answer to a poll of a ring that was pushed `all`, of which the last `size`
      are live. */
  function Since(all: seq<TailEvent>, size: nat, afterSeq: nat, matches: TailEvent -> bool, limit: nat): Result
    requires size <= |all|
  {
    var oldest := |all| - size;   // how many are gone
    var from := if afterSeq < oldest then oldest else afterSeq;
    var events := Matching(all, from, matches, limit);
    if size == 0 then Result([], afterSeq, false, 0)
    else Result(events, if events == [] then |all| else events[|events| - 1].number,
                afterSeq <= oldest, if afterSeq < oldest then oldest - afterSeq else 0)
  }

  /** Sequence numbers count the pushes. */
  ghost predicate Numbered(all: seq<TailEvent>) { forall i :: 0 <= i < |all| ==> all[i].number == i + 1 }

  class TenantRing {
    var events: array<Option<TailEvent>>
    var head: nat
    var size: nat
    var lastSeq: nat
    ghost var pushed: seq<TailEvent>    // all that this ring was ever pushed

    constructor (capacity: nat)
      requires capacity > 0
      ensures Valid() && fresh(events) && events.Length == capacity && pushed == [] && size == 0
    {
      events := new Option<TailEvent>[capacity](i => None);
      head, size, lastSeq, pushed := 0, 0, 0, [];
    }

    function StartIndex(): nat
      reads this, events
    {
      if size < events.Length then 0 else head
    }

    /** Where the `i`-th oldest live event is. */
    function Slot(i: nat): nat
      reads this, events
    {
      Wrapped(StartIndex() + i, events.Length)
    }

    /** The live slots, read from the start index, hold the last `size` pushes. */
    ghost predicate Valid()
      reads this, events
    {
      && events.Length > 0 && size <= events.Length && head < events.Length
      && (size < events.Length ==> head == size)
      && lastSeq == |pushed| && size <= |pushed| && Numbered(pushed)
      && forall i :: 0 <= i < size ==> events[Slot(i)] == Some(pushed[|pushed| - size + i])
    }

    method Push(timestamp: int, text: string)
      requires Valid()
      modifies this, events
      ensures Valid() && events == old(events)
      ensures pushed == old(pushed) + [TailEvent(|old(pushed)| + 1, timestamp, text)]
      ensures size == if old(size) < events.Length then old(size) + 1 else old(size)
    {
      lastSeq := lastSeq + 1;
      var event := TailEvent(lastSeq, timestamp, text);
      ghost var h, full := head, size == events.Length;
      events[head] := Some(event);
      WrappedIsMod(head + 1, events.Length);
      head := (head + 1) % events.Length;
      if size < events.Length {
        size := size + 1;
      }
      pushed := pushed + [event];
      forall i | 0 <= i < size ensures events[Slot(i)] == Some(pushed[|pushed| - size + i]) {
        ghost var j := if full then i + 1 else i;
        if i < size - 1 {
          assert old(Slot(j)) == Slot(i) != h;
          assert old(events[Slot(j)]) == Some(old(pushed)[|old(pushed)| - old(size) + j]);
        } else {
          assert Slot(i) == h;
        }
      }
    }

    /** The `i`-th oldest live event: its slot is never empty. */
    method At(i: nat) returns (event: TailEvent)
      requires Valid() && i < size
      ensures event == pushed[|pushed| - size + i]
    {
      WrappedIsMod(StartIndex() + i, events.Length);
      var k := (StartIndex() + i) % events.Length;
      assert events[Slot(i)] == events[k];
      event := events[k].value;
    }

    method OldestSeq() returns (number: nat)
      requires Valid()
      ensures number == if size == 0 then 0 else |pushed| - size + 1
    {
      if size == 0 {
        return 0;
      }
      var event := At(0);
      number := event.number;
    }

    /** The events after a cursor that match, oldest first, at most `limit` of them. */
    method GetSince(afterSeq: nat, matches: TailEvent -> bool, limit: nat) returns (r: Result)
      requires Valid()
      ensures r == Since(pushed, size, afterSeq, matches, limit)
    {
      if size == 0 {
        return Result([], afterSeq, false, 0);
      }
      var oldestSeq := OldestSeq();
      var gap, missedEstimate := false, 0;
      if afterSeq < oldestSeq {
        gap, missedEstimate := true, oldestSeq - afterSeq - 1;
      }
      var found := Collect(afterSeq, matches, limit);
      ScanIsMatching(pushed, |pushed| - size, afterSeq, matches, limit);
      var cursor := if |found| > 0 then found[|found| - 1].number else lastSeq;
      r := Result(found, cursor, gap, missedEstimate);
    }

    /** The scan of the live slots. */
    method Collect(afterSeq: nat, matches: TailEvent -> bool, limit: nat) returns (found: seq<TailEvent>)
      requires Valid()
      ensures found == Scan(pushed, |pushed| - size, afterSeq, matches, limit)
    {
      found := [];
      var i := 0;
      ghost var oldest := |pushed| - size;
      ghost var all := Scan(pushed, oldest, afterSeq, matches, limit);
      ghost var rest := all;
      while i < size && |found| < limit
        invariant i <= size && |found| <= limit && found + rest == all
        invariant rest == Scan(pushed, oldest + i, afterSeq, matches, limit - |found|)
      {
        var event := At(i);
        if event.number > afterSeq && matches(event) {
          rest := Scan(pushed, oldest + i + 1, afterSeq, matches, limit - |found| - 1);
          assert found + ([event] + rest) == (found + [event]) + rest;
          found := found + [event];
        }
        i := i + 1;
      }
      assert found + [] == found;
    }

    /** All events have expired: the ring starts over, its numbering does not. */
    method Reset()
      requires Valid()
      modifies this
      ensures Valid() && fresh(events) && events.Length == old(events.Length)
      ensures size == 0 && pushed == old(pushed)
    {
      events := new Option<TailEvent>[events.Length](i => None);
      head, size := 0, 0;
    }
  }

  /** A position less than twice around. */
  function Wrapped(x: nat, n: nat): nat { if x < n then x else x - n }

  lemma WrappedIsMod(x: nat, n: nat)
    requires n > 0 && x < 2 * n
    ensures x % n == Wrapped(x, n)
  {
    if x >= n {
      assert x == n * 1 + (x - n);
    }
  }

  // ------------------------------------------------------------------ polling, over runs

  /** A ring and one client that polls it with a fixed filter: what it was handed, and
      the positions of the pushes it was told it missed. */
  datatype State = State(pushed: seq<TailEvent>, size: nat, cursor: nat, delivered: seq<TailEvent>, missed: set<nat>)

  datatype Step = Push(timestamp: int, text: string) | Expire | Poll(limit: nat)

  /** The position of the oldest live push. */
  function Oldest(s: State): int { |s.pushed| - s.size }

  /** The pushes that are gone between the cursor and the oldest live one. */
  function NewlyMissed(s: State): set<nat> {
    if s.size == 0 || Oldest(s) < s.cursor then {} else Range(s.cursor, Oldest(s))
  }

  function Range(lo: nat, hi: nat): (r: set<nat>)
    requires lo <= hi
    ensures |r| == hi - lo && forall k :: k in r <==> lo <= k < hi
    decreases hi - lo
  {
    if lo == hi then {} else Range(lo, hi - 1) + {hi - 1}
  }

  function Next(capacity: nat, matches: TailEvent -> bool, s: State, step: Step): State
    requires s.size <= |s.pushed|
  {
    match step
    case Push(timestamp, text) =>
      s.(pushed := s.pushed + [TailEvent(|s.pushed| + 1, timestamp, text)],
         size := if s.size < capacity then s.size + 1 else s.size)
    case Expire => s.(size := 0)
    case Poll(limit) =>
      var r := Since(s.pushed, s.size, s.cursor, matches, limit);
      s.(cursor := r.cursor, delivered := s.delivered + r.events, missed := s.missed + NewlyMissed(s))
  }

  /** The matching pushes up to a position, without those that were missed. */
  function Expected(all: seq<TailEvent>, upto: nat, missed: set<nat>, matches: TailEvent -> bool): seq<TailEvent>
    requires upto <= |all|
  {
    if upto == 0 then []
    else Expected(all, upto - 1, missed, matches)
         + if upto - 1 !in missed && matches(all[upto - 1]) then [all[upto - 1]] else []
  }

  ghost predicate Inv(matches: TailEvent -> bool, s: State) {
    && s.size <= |s.pushed| && Numbered(s.pushed) && s.cursor <= |s.pushed|
    && s.delivered == Expected(s.pushed, s.cursor, s.missed, matches)
    && (forall k :: k in s.missed ==> k < s.cursor && k < Oldest(s))
  }

  lemma {:induction false} ExpectedFrame(a: seq<TailEvent>, b: seq<TailEvent>, upto: nat, missed: set<nat>,
        more: set<nat>, matches: TailEvent -> bool)
    requires upto <= |a| && a <= b && missed <= more && forall k :: k in more && k < upto ==> k in missed
    ensures Expected(a, upto, missed, matches) == Expected(b, upto, more, matches)
  {
    if upto > 0 {
      ExpectedFrame(a, b, upto - 1, missed, more, matches);
    }
  }

  lemma {:induction false} MissedAddNothing(all: seq<TailEvent>, from: nat, upto: nat, missed: set<nat>,
        matches: TailEvent -> bool)
    requires from <= upto <= |all| && forall k :: from <= k < upto ==> k in missed
    ensures Expected(all, upto, missed, matches) == Expected(all, from, missed, matches)
  {
    if from < upto {
      MissedAddNothing(all, from, upto - 1, missed, matches);
    }
  }

  /** Where a poll stops. */
  function Stop(all: seq<TailEvent>, events: seq<TailEvent>): nat {
    if events == [] then |all| else events[|events| - 1].number
  }

  /** A poll takes the expected events up to where it stops. */
  lemma {:induction false} MatchingIsExpected(all: seq<TailEvent>, from: nat, missed: set<nat>,
        matches: TailEvent -> bool, limit: nat)
    requires Numbered(all) && from <= |all| && limit > 0 && forall k :: k in missed ==> k < from
    ensures var events := Matching(all, from, matches, limit);
            && from <= Stop(all, events) <= |all|
            && Expected(all, Stop(all, events), missed, matches) == Expected(all, from, missed, matches) + events
    decreases |all| - from
  {
    var events := Matching(all, from, matches, limit);
    if from == |all| {
    } else if !matches(all[from]) {
      MatchingIsExpected(all, from + 1, missed, matches, limit);
    } else {
      var e, rest := all[from], Matching(all, from + 1, matches, limit - 1);
      assert Expected(all, from + 1, missed, matches) == Expected(all, from, missed, matches) + [e];
      if limit > 1 {
        MatchingIsExpected(all, from + 1, missed, matches, limit - 1);
      }
      assert events == [e] + rest && Stop(all, events) == if rest == [] then from + 1 else Stop(all, rest);
      assert (Expected(all, from, missed, matches) + [e]) + rest == Expected(all, from, missed, matches) + events;
    }
  }

  /** From the cursor on: what is gone is passed over, the rest is as expected. */
  lemma PollDelivers(all: seq<TailEvent>, cursor: nat, from: nat, missed: set<nat>, more: set<nat>,
        matches: TailEvent -> bool, limit: nat)
    requires Numbered(all) && cursor <= from <= |all| && limit > 0
    requires missed <= more && (forall k :: k in more ==> k < from)
             && (forall k :: k in more && k < cursor ==> k in missed)
    requires forall k :: cursor <= k < from ==> k in more
    ensures var events := Matching(all, from, matches, limit);
            && from <= Stop(all, events) <= |all|
            && Expected(all, Stop(all, events), more, matches) == Expected(all, cursor, missed, matches) + events
  {
    ExpectedFrame(all, all, cursor, missed, more, matches);
    MissedAddNothing(all, cursor, from, more, matches);
    MatchingIsExpected(all, from, more, matches, limit);
  }

  lemma PollKeepsInv(matches: TailEvent -> bool, s: State, limit: nat)
    requires Inv(matches, s) && limit > 0
    ensures Inv(matches, Next(0, matches, s, Poll(limit)))
  {
    var t := Next(0, matches, s, Poll(limit));
    if s.size == 0 {
      assert t == s;
    } else {
      LivePoll(matches, s, limit, t);
    }
  }

  lemma PollIs(matches: TailEvent -> bool, s: State, limit: nat, from: nat, events: seq<TailEvent>)
    requires s.size <= |s.pushed| && s.size > 0 && from == if s.cursor < Oldest(s) then Oldest(s) else s.cursor
    requires events == Matching(s.pushed, from, matches, limit) && limit > 0
    ensures Next(0, matches, s, Poll(limit))
         == s.(cursor := Stop(s.pushed, events), delivered := s.delivered + events, missed := s.missed + NewlyMissed(s))
  {
  }

  lemma LivePoll(matches: TailEvent -> bool, s: State, limit: nat, t: State)
    requires Inv(matches, s) && limit > 0 && s.size > 0 && t == Next(0, matches, s, Poll(limit))
    ensures t.cursor <= |t.pushed| && t.delivered == Expected(t.pushed, t.cursor, t.missed, matches)
    ensures forall k :: k in t.missed ==> k < t.cursor && k < Oldest(t)
  {
    var from := if s.cursor < Oldest(s) then Oldest(s) else s.cursor;
    MissedBefore(matches, s, from);
    PollIs(matches, s, limit, from, Matching(s.pushed, from, matches, limit));
    PollDelivers(s.pushed, s.cursor, from, s.missed, s.missed + NewlyMissed(s), matches, limit);
  }

  lemma MissedBefore(matches: TailEvent -> bool, s: State, from: nat)
    requires Inv(matches, s) && s.size > 0 && from == if s.cursor < Oldest(s) then Oldest(s) else s.cursor
    ensures forall k :: k in s.missed + NewlyMissed(s) ==> k < from && k < Oldest(s)
    ensures forall k :: k in s.missed + NewlyMissed(s) && k < s.cursor ==> k in s.missed
    ensures forall k :: s.cursor <= k < from ==> k in s.missed + NewlyMissed(s)
  {
  }

  lemma StepKeepsInv(capacity: nat, matches: TailEvent -> bool, s: State, step: Step)
    requires Inv(matches, s) && capacity > 0 && (step.Poll? ==> step.limit > 0)
    ensures Inv(matches, Next(capacity, matches, s, step))
  {
    match step
    case Push(_, _) =>
      var t := Next(capacity, matches, s, step);
      ExpectedFrame(s.pushed, t.pushed, s.cursor, s.missed, s.missed, matches);
    case Expire =>
    case Poll(limit) => PollKeepsInv(matches, s, limit);
  }

  function After(capacity: nat, matches: TailEvent -> bool, s: State, steps: seq<Step>): Option<State>
    decreases |steps|
  {
    if steps == [] then Some(s)
    else if s.size > |s.pushed| then None
    else After(capacity, matches, Next(capacity, matches, s, steps[0]), steps[1..])
  }

  lemma {:induction false} RunKeepsInv(capacity: nat, matches: TailEvent -> bool, s: State, steps: seq<Step>)
    requires Inv(matches, s) && capacity > 0 && forall i :: 0 <= i < |steps| && steps[i].Poll? ==> steps[i].limit > 0
    ensures After(capacity, matches, s, steps).Some? && Inv(matches, After(capacity, matches, s, steps).value)
    decreases |steps|
  {
    if steps != [] {
      StepKeepsInv(capacity, matches, s, steps[0]);
      RunKeepsInv(capacity, matches, Next(capacity, matches, s, steps[0]), steps[1..]);
    }
  }

  /** Over every run of pushes, expiries and polls, a client that starts at the
      beginning has been handed, once each and in order, the matching pushes up to its
      cursor, except those it was told it missed, and those had left the ring. */
  lemma PollsDeliverOnce(capacity: nat, matches: TailEvent -> bool, steps: seq<Step>)
    requires capacity > 0 && forall i :: 0 <= i < |steps| && steps[i].Poll? ==> steps[i].limit > 0
    ensures var end := After(capacity, matches, State([], 0, 0, [], {}), steps);
            && end.Some? && end.value.size <= |end.value.pushed| && end.value.cursor <= |end.value.pushed|
            && end.value.delivered == Expected(end.value.pushed, end.value.cursor, end.value.missed, matches)
            && forall k :: k in end.value.missed ==> k < end.value.cursor && k < Oldest(end.value)
  {
    RunKeepsInv(capacity, matches, State([], 0, 0, [], {}), steps);
  }

  /** The reported number of missed events is the number of those that left the ring
      unseen; the gap flag is raised for them, and also when the cursor stands right
      before the oldest live event and nothing was missed. */
  lemma MissedIsExact(matches: TailEvent -> bool, s: State, limit: nat)
    requires Inv(matches, s) && s.size > 0
    ensures var r := Since(s.pushed, s.size, s.cursor, matches, limit);
            && r.missedEstimate == |NewlyMissed(s)|
            && (r.gap <==> NewlyMissed(s) != {} || s.cursor == Oldest(s))
  {
    if s.cursor < Oldest(s) {
      assert s.cursor in NewlyMissed(s);
    }
  }

  /** A poll of a ring that holds something keeps the account exactly when it asks for
      at least one event or nothing live matches: with a limit of zero the cursor
      passes over all there is. */
  lemma AccountIffLimit(matches: TailEvent -> bool, s: State, limit: nat)
    requires Inv(matches, s) && s.size > 0
    ensures var from := if s.cursor < Oldest(s) then Oldest(s) else s.cursor;
            Inv(matches, Next(0, matches, s, Poll(limit))) <==> limit > 0 || Matching(s.pushed, from, matches, 1) == []
  {
    if limit > 0 {
      PollKeepsInv(matches, s, limit);
    } else {
      ZeroPassesOver(matches, s);
    }
  }

  lemma ZeroPassesOver(matches: TailEvent -> bool, s: State)
    requires Inv(matches, s) && s.size > 0
    ensures var from := if s.cursor < Oldest(s) then Oldest(s) else s.cursor;
            Inv(matches, Next(0, matches, s, Poll(0))) <==> Matching(s.pushed, from, matches, 1) == []
  {
    var t := Next(0, matches, s, Poll(1));
    PollKeepsInv(matches, s, 1);
    var from := if s.cursor < Oldest(s) then Oldest(s) else s.cursor;
    ExpectedFrame(s.pushed, s.pushed, s.cursor, s.missed, t.missed, matches);
    MissedAddNothing(s.pushed, s.cursor, from, t.missed, matches);
    ExpectedGrows(s.pushed, t.cursor, |s.pushed|, t.missed, matches);
  }

  lemma {:induction false} ExpectedGrows(all: seq<TailEvent>, from: nat, upto: nat, missed: set<nat>,
        matches: TailEvent -> bool)
    requires from <= upto <= |all|
    ensures |Expected(all, from, missed, matches)| <= |Expected(all, upto, missed, matches)|
  {
    if from < upto {
      ExpectedGrows(all, from, upto - 1, missed, matches);
    }
  }
}
