/**
  The double buffer of the transport (packages/transport/src/buffer.ts): a bounded
  active buffer, at most one batch in flight, and eviction of the oldest events down
  to a low-water mark.
*/
module TransportBuffer {

  type Event = string

  datatype Fate = Flushing | Flushed | Dropped | Drained

  /** Consecutive pushes that left the active buffer together. */
  datatype Segment = Segment(fate: Fate, events: seq<Event>)

  function Concat(segments: seq<Segment>): seq<Event> {
    if segments == [] then [] else Concat(segments[..|segments| - 1]) + segments[|segments| - 1].events
  }

  /** How many events met a fate. */
  function Total(segments: seq<Segment>, fate: Fate): nat {
    if segments == [] then 0
    else
      var last := segments[|segments| - 1];
      Total(segments[..|segments| - 1], fate) + if last.fate == fate then |last.events| else 0
  }

  /** The batch in flight has landed, well or not. */
  function Settled(segments: seq<Segment>): seq<Segment> {
    if segments == [] then []
    else
      var last := segments[|segments| - 1];
      Settled(segments[..|segments| - 1]) + [if last.fate == Flushing then last.(fate := Flushed) else last]
  }

  lemma {:induction false} SettledIs(segments: seq<Segment>)
    ensures Concat(Settled(segments)) == Concat(segments)
    ensures Total(Settled(segments), Flushing) == 0
    ensures Total(Settled(segments), Flushed) == Total(segments, Flushed) + Total(segments, Flushing)
    ensures Total(Settled(segments), Dropped) == Total(segments, Dropped)
    ensures Total(Settled(segments), Drained) == Total(segments, Drained)
  {
    if segments != [] {
      var most, last := segments[..|segments| - 1], segments[|segments| - 1];
      SettledIs(most);
      SegmentSnoc(Settled(most), if last.fate == Flushing then last.(fate := Flushed) else last);
    }
  }

  lemma SegmentSnoc(segments: seq<Segment>, s: Segment)
    ensures Concat(segments + [s]) == Concat(segments) + s.events
    ensures forall fate ::
            Total(segments + [s], fate)
            == Total(segments, fate) + if s.fate == fate then |s.events| else 0
  {
    assert (segments + [s])[..|segments|] == segments;
  }

  /** Every push has one fate, or is still active. */
  lemma {:induction false} TotalsAddUp(segments: seq<Segment>)
    ensures |Concat(segments)|
            == Total(segments, Flushing) + Total(segments, Flushed) + Total(segments, Dropped)
                + Total(segments, Drained)
  {
    if segments != [] {
      TotalsAddUp(segments[..|segments| - 1]);
    }
  }

  function Max(a: int, b: int): int { if a > b then a else b }

  /** Nine tenths of the cap, but at least one. */
  function LowWaterMark(cap: nat): nat { Max(1, cap * 9 / 10) }

  /** What eviction leaves of the active buffer. */
  function TargetActive(cap: nat, inflight: nat): int { Max(0, LowWaterMark(cap) - inflight) }

  class BufferManager {
    const bufferSize: nat
    const cap: nat
    var active: seq<Event>
    var inflight: bool
    var inflightSize: nat
    var droppedCount: nat
    var destroyed: bool
    ghost var pushed: seq<Event>       // every push that was accepted
    ghost var left: seq<Segment>       // what has left the active buffer, in order
    ghost var shifted: nat             // array lengths that evictions have handled

    constructor (bufferSize: nat, cap: nat)
      ensures Valid() && this.bufferSize == bufferSize && this.cap == cap && !destroyed
      ensures pushed == [] && left == [] && shifted == 0
    {
      this.bufferSize, this.cap := bufferSize, cap;
      active, inflight, inflightSize, droppedCount, destroyed := [], false, 0, 0, false;
      pushed, left, shifted := [], [], 0;
    }

    /** The pushes, in order, are what has left and then what is active; the batch in
        flight is what has left and not landed; memory is bounded by the cap (by one
        event for a cap of zero); and, for a cap above zero, evictions have handled at
        most ten times what they dropped. */
    ghost predicate Valid()
      reads this
    {
      && pushed == Concat(left) + active
      && inflightSize == Total(left, Flushing) && (inflight <==> inflightSize > 0)
      && droppedCount == Total(left, Dropped)
      && |active| + inflightSize <= Max(cap, 1)
      && (cap > 0 ==> shifted <= 10 * droppedCount)
    }

    /** A push drops the oldest active events, only when the cap is hit, and then
        down to the low-water mark less what is in flight; what is left is flushed if
        it fills the buffer and nothing is in flight. */
    method Push(event: Event) returns (evicted: seq<Event>)
      requires Valid()
      modifies this
      ensures Valid() && destroyed == old(destroyed)
      ensures pushed == if destroyed then old(pushed) else old(pushed) + [event]
      ensures destroyed ==> active == old(active) && left == old(left) && inflight == old(inflight)
      ensures |evicted| == if destroyed then 0 else Evicted(cap, |old(active)| + 1, old(inflightSize))
      ensures droppedCount == old(droppedCount) + |evicted|
      ensures !destroyed ==>
                var kept := (old(active) + [event])[|evicted|..];
                && evicted == (old(active) + [event])[..|evicted|]
                && if kept != [] && |kept| >= bufferSize && !old(inflight)
                   then active == [] && inflight && inflightSize == |kept| && left != []
                       && left[|left| - 1] == Segment(Flushing, kept)
                   else active == kept && inflightSize == old(inflightSize)
    {
      evicted := [];
      if destroyed {
        return;
      }
      Append(event);
      if |active| + inflightSize > cap {
        evicted := Evict();
      }
      if |active| >= bufferSize {
        TriggerFlush();
      }
    }

    method Append(event: Event)
      requires Valid()
      modifies this`active, this`pushed
      ensures active == old(active) + [event] && pushed == old(pushed) + [event] && pushed == Concat(left) + active
    {
      active := active + [event];
      pushed := pushed + [event];
    }

    /** Evict down to the low-water mark. */
    method Evict() returns (evicted: seq<Event>)
      requires pushed == Concat(left) + active && inflightSize == Total(left, Flushing)
               && (inflight <==> inflightSize > 0)
      requires droppedCount == Total(left, Dropped) && (cap > 0 ==> shifted <= 10 * droppedCount)
      requires active != [] && Max(cap, 1) >= |active| - 1 + inflightSize && |active| + inflightSize > cap
      modifies this`active, this`left, this`shifted, this`droppedCount
      ensures Valid() && droppedCount == old(droppedCount) + |evicted|
      ensures |evicted| == Evicted(cap, |old(active)|, inflightSize) && |evicted| <= |old(active)|
      ensures evicted == old(active)[..|evicted|] && active == old(active)[|evicted|..]
    {
      EvictionPays(cap, |active|, inflightSize);
      var targetActive := TargetActive(cap, inflightSize);
      var dropCount := |active| - targetActive;
      shifted := shifted + |active|;
      evicted := active[..dropCount];
      Leave(Dropped, dropCount);
      droppedCount := droppedCount + |evicted|;
    }

    /** Bookkeeping: the oldest `n` active events leave with one fate. */
    method Leave(ghost fate: Fate, n: nat)
      requires n <= |active|
      modifies this`active, this`left
      ensures active == old(active)[n..] && left == old(left) + [Segment(fate, old(active)[..n])]
      ensures Concat(left) + active == Concat(old(left)) + old(active)
      ensures forall f :: Total(left, f) == Total(old(left), f) + if f == fate then n else 0
    {
      SegmentSnoc(left, Segment(fate, active[..n]));
      left := left + [Segment(fate, active[..n])];
      active := active[n..];
    }

    /** Swap the active buffer out, unless it is empty or a batch is in flight. */
    method TriggerFlush()
      requires Valid()
      modifies this`active, this`left, this`inflight, this`inflightSize
      ensures Valid()
      ensures if old(active) == [] || old(inflight)
              then active == old(active) && left == old(left) && inflight == old(inflight)
                  && inflightSize == old(inflightSize)
              else active == [] && inflight && left == old(left) + [Segment(Flushing, old(active))]
    {
      if |active| == 0 || inflight {
        return;
      }
      var n := |active|;
      assert active[..n] == active;
      Leave(Flushing, n);
      inflightSize := n;
      inflight := true;
    }

    /** The flush in flight has resolved or failed. */
    method Settle()
      requires Valid() && inflight
      modifies this`left, this`inflight, this`inflightSize
      ensures Valid() && !inflight && left == Settled(old(left))
    {
      SettledIs(left);
      left := Settled(left);
      inflight, inflightSize := false, 0;
    }

    method Drain() returns (events: seq<Event>)
      requires Valid()
      modifies this`active, this`left
      ensures Valid() && events == old(active) && active == []
      ensures left == old(left) + [Segment(Drained, events)]
    {
      events := active;
      assert active[..|active|] == active;
      Leave(Drained, |active|);
    }

    /** Nothing that is buffered is lost by it; pushes are refused from now on. */
    method Destroy()
      requires Valid()
      modifies this`destroyed
      ensures Valid() && destroyed
    {
      destroyed := true;
    }
  }

  /** How many events a push evicts, the new one counted as active. */
  function Evicted(cap: nat, active: nat, inflight: nat): int {
    if active + inflight <= cap then 0 else active - TargetActive(cap, inflight)
  }

  /** An eviction makes room, and the array that it handles is at most ten times what
      it drops. */
  lemma EvictionPays(cap: nat, active: nat, inflight: nat)
    requires active > 0 && cap < active + inflight <= Max(cap, 1) + 1
    ensures 0 <= TargetActive(cap, inflight) <= active
    ensures TargetActive(cap, inflight) + inflight <= Max(cap, 1)
    ensures cap > 0 ==> active <= 10 * (active - TargetActive(cap, inflight))
  {
  }

  /** Nothing is evicted within the cap. Over it, an eviction leaves as much as it may:
      what stays active is, with what is in flight, at most nine tenths of the cap or a
      single event, and one event more would be over both. */
  lemma EvictionIsLeast(cap: nat, active: nat, inflight: nat)
    requires active > 0 && active - 1 + inflight <= Max(cap, 1)
    ensures active + inflight <= cap ==> Evicted(cap, active, inflight) == 0
    ensures active + inflight > cap
            ==> var kept := active - Evicted(cap, active, inflight);
                && 0 <= kept <= active && (kept == 0 || 10 * (kept + inflight) <= 9 * cap || kept + inflight == 1)
                && 10 * (kept + 1 + inflight) > 9 * cap && kept + 1 + inflight > 1
  {
    if active + inflight > cap {
      EvictionPays(cap, active, inflight);
    }
  }

  /** The cap bounds what a push retains exactly when it is not zero: a cap of zero
      retains one event all the same. */
  lemma BoundIffCap(cap: nat)
    ensures (forall active: nat, inflight: nat :: active > 0 && active - 1 + inflight <= Max(cap, 1)
               ==> active - Evicted(cap, active, inflight) + inflight <= cap)
       <==> cap > 0
  {
    if cap == 0 {
      assert 1 - Evicted(0, 1, 0) + 0 == 1;
    }
  }
}
