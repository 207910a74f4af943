/**
  Which of its matches a pass replaces (services/api/src/pipeline/preprocess.ts:51-57):
  the engine takes the first that its backtracking comes to, and that is the longest of
  the leftmost.
*/
module Longest {
  import opened Base
  import opened Regex
  import opened RegexFacts
  import opened Preprocess
  import opened Patterns

  predicate Falling(es: seq<nat>) { forall x, y :: 0 <= x < y < |es| ==> es[x] > es[y] }

  /** At each position the matches come by falling length. */
  ghost predicate Greedy(r: Regex, s: Text, ic: bool) {
    forall i: nat :: i <= |s| ==> Falling(Ends(r, s, i, ic))
  }

  /** No match of `r` from the one position ends as late as any from the other. */
  ghost predicate EndsLater(r: Regex, s: Text, e: nat, f: nat, ic: bool)
    requires e <= |s| && f <= |s|
  {
    forall j, k :: j in Ends(r, s, e, ic) && k in Ends(r, s, f, ic) ==> j > k
  }

  lemma FallingConcat(a: seq<nat>, b: seq<nat>)
    requires Falling(a) && Falling(b) && forall x, y :: x in a && y in b ==> x > y
    ensures Falling(a + b)
  {
    var all := a + b;
    forall x, y | 0 <= x < y < |all| ensures all[x] > all[y] {
      assert if x < |a| then all[x] in a else all[x] == b[x - |a|];
      assert y >= |a| ==> all[y] in b && all[y] == b[y - |a|];
    }
  }

  lemma FallingTail(a: seq<nat>)
    requires Falling(a) && a != []
    ensures Falling(a[1..]) && forall x :: x in a[1..] ==> x in a && x < a[0]
  {
  }

  // --------------------------------------------------------------------- building up

  lemma {:induction false} EndsAllFalls(r: Regex, s: Text, lo: nat, starts: seq<nat>, ic: bool)
    requires Within(starts, lo, |s|) && Falling(starts) && Greedy(r, s, ic)
    requires forall e, f :: e in starts && f in starts && e > f ==> EndsLater(r, s, e, f, ic)
    ensures Falling(EndsAll(r, s, lo, starts, ic))
  {
    if starts != [] {
      var first, rest := starts[0], starts[1..];
      FallingTail(starts);
      EndsAllFalls(r, s, lo, rest, ic);
      var a, b := Ends(r, s, first, ic), EndsAll(r, s, lo, rest, ic);
      forall x, y | x in a && y in b ensures x > y {
        InEndsAll(r, s, lo, rest, ic, y);
        var k :| 0 <= k < |rest| && y in Ends(r, s, rest[k], ic);
        assert rest[k] in rest && EndsLater(r, s, first, rest[k], ic);
      }
      FallingConcat(a, b);
    }
  }

  lemma GreedyCat(a: Regex, b: Regex, s: Text, ic: bool)
    requires Greedy(a, s, ic) && Greedy(b, s, ic)
    requires forall i: nat, e, f :: i <= |s| && e in Ends(a, s, i, ic) && f in Ends(a, s, i, ic) && e > f
               ==> EndsLater(b, s, e, f, ic)
    ensures Greedy(Cat(a, b), s, ic)
  {
    forall i: nat | i <= |s| ensures Falling(Ends(Cat(a, b), s, i, ic)) {
      EndsAllFalls(b, s, i, Ends(a, s, i, ic), ic);
    }
  }

  /** There is at most one match at each position. */
  ghost predicate Single(r: Regex, s: Text, ic: bool) { forall i: nat :: i <= |s| ==> |Ends(r, s, i, ic)| <= 1 }

  lemma AfterSingle(a: Regex, b: Regex, s: Text, ic: bool)
    requires Single(a, s, ic) && Greedy(b, s, ic)
    ensures Greedy(Cat(a, b), s, ic)
  {
    GreedyCat(a, b, s, ic);
  }

  lemma CharIsSingle(k: CharClass, s: Text, ic: bool)
    ensures Single(Char(k), s, ic)
  {
  }

  lemma {:induction false} RunFalls(k: CharClass, min: nat, max: Bound, s: Text, i: nat, ic: bool)
    requires i <= |s|
    ensures Falling(RepeatEnds(Char(k), min, max, true, s, i, ic))
    decreases |s| - i, min
  {
    if max != AtMost(0) && i < |s| && In(k, s[i], ic) {
      RunFalls(k, Pred(min), Dec(max), s, i + 1, ic);
      RunUnfolds(k, min, max, s, i, ic);
      var more := RepeatEnds(Char(k), Pred(min), Dec(max), true, s, i + 1, ic);
      FallingConcat(more, if min > 0 then [] else [i]);
    } else {
      RunStops(k, min, max, s, i, ic);
    }
  }

  lemma RunUnfolds(k: CharClass, min: nat, max: Bound, s: Text, i: nat, ic: bool)
    requires i < |s| && max != AtMost(0) && In(k, s[i], ic)
    ensures RepeatEnds(Char(k), min, max, true, s, i, ic)
         == RepeatEnds(Char(k), Pred(min), Dec(max), true, s, i + 1, ic) + if min > 0 then [] else [i]
  {
    var c, more := Char(k), RepeatEnds(Char(k), Pred(min), Dec(max), true, s, i + 1, ic);
    assert Ends(c, s, i, ic) == [i + 1];
    assert Progress([i + 1], i, |s|) == [i + 1] by {
      assert [i + 1][1..] == [];
    }
    assert RepeatAll(c, Pred(min), Dec(max), true, s, if min > 0 then i else i + 1, [i + 1], ic) == more + [] by {
      assert [i + 1][1..] == [];
    }
  }

  lemma RunStops(k: CharClass, min: nat, max: Bound, s: Text, i: nat, ic: bool)
    requires i <= |s| && (max == AtMost(0) || i == |s| || !In(k, s[i], ic))
    ensures RepeatEnds(Char(k), min, max, true, s, i, ic) == if min > 0 then [] else [i]
  {
    assert Ends(Char(k), s, i, ic) == [] || max == AtMost(0);
  }

  lemma RunIsGreedy(k: CharClass, min: nat, max: Bound, s: Text, ic: bool)
    ensures Greedy(Repeat(Char(k), min, max, true), s, ic)
  {
    forall i: nat | i <= |s| ensures Falling(Ends(Repeat(Char(k), min, max, true), s, i, ic)) {
      RunFalls(k, min, max, s, i, ic);
    }
  }

  lemma TwoDiffer(es: seq<nat>)
    requires Falling(es) && |es| > 1
    ensures es[0] in es && es[1] in es && es[0] > es[1]
  {
  }

  lemma OneOnly(es: seq<nat>, e: nat)
    requires Falling(es) && forall x :: x in es ==> x == e
    ensures |es| <= 1
  {
    if |es| > 1 {
      TwoDiffer(es);
    }
  }

  lemma TimesIsSingle(k: CharClass, n: nat, s: Text, ic: bool)
    ensures Single(Times(k, n), s, ic)
  {
    var r := Times(k, n);
    forall i: nat | i <= |s| ensures |Ends(r, s, i, ic)| <= 1 {
      RunFalls(k, n, AtMost(n), s, i, ic);
      var es := Ends(r, s, i, ic);
      forall e | e in es ensures e == i + n {
        EndsAreMatches(r, s, i, e, ic);
        TimesIs(k, n, s, i, e, ic);
      }
      OneOnly(es, i + n);
    }
  }

  /** An optional part: with it, then without. */
  lemma MaybeIs(r: Regex, s: Text, i: nat, ic: bool)
    requires i <= |s|
    ensures Ends(Maybe(r), s, i, ic) == Progress(Ends(r, s, i, ic), i, |s|) + [i]
  {
    if i == |s| {
      NoProgress(Ends(r, s, i, ic), i);
    } else {
      AllStop(r, s, i + 1, Starts(r, 0, s, i, ic), ic);
    }
  }

  lemma NoProgress(es: seq<nat>, i: nat)
    requires Within(es, i, i)
    ensures Progress(es, i, i) == []
  {
  }

  lemma {:induction false} AllStop(r: Regex, s: Text, lo: nat, starts: seq<nat>, ic: bool)
    requires lo <= |s| && Within(starts, lo, |s|)
    ensures RepeatAll(r, 0, AtMost(0), true, s, lo, starts, ic) == starts
    decreases |starts|
  {
    if starts != [] {
      AllStop(r, s, lo, starts[1..], ic);
    }
  }

  lemma {:induction false} ProgressFalls(es: seq<nat>, i: nat, hi: nat)
    requires Within(es, i, hi) && Falling(es)
    ensures Falling(Progress(es, i, hi)) && forall e :: e in Progress(es, i, hi) ==> e in es
  {
    if es != [] {
      FallingTail(es);
      ProgressFalls(es[1..], i, hi);
      FallingConcat(if es[0] > i then [es[0]] else [], Progress(es[1..], i, hi));
    }
  }

  lemma MaybeIsGreedy(r: Regex, s: Text, ic: bool)
    requires Greedy(r, s, ic)
    ensures Greedy(Maybe(r), s, ic)
  {
    forall i: nat | i <= |s| ensures Falling(Ends(Maybe(r), s, i, ic)) {
      MaybeIs(r, s, i, ic);
      ProgressFalls(Ends(r, s, i, ic), i, |s|);
      FallingConcat(Progress(Ends(r, s, i, ic), i, |s|), [i]);
    }
  }

  lemma {:induction false} FieldsAreGreedy(k: CharClass, fields: seq<(nat, Unit)>, r: Regex, s: Text, ic: bool)
    requires Greedy(r, s, ic)
    ensures Greedy(FieldsThen(k, fields, r), s, ic)
  {
    if fields != [] {
      var rest, mark := FieldsThen(k, fields[1..], r), Char(One(fields[0].1));
      FieldsAreGreedy(k, fields[1..], r, s, ic);
      CharIsSingle(One(fields[0].1), s, ic);
      AfterSingle(mark, rest, s, ic);
      TimesIsSingle(k, fields[0].0, s, ic);
      AfterSingle(Times(k, fields[0].0), Cat(mark, rest), s, ic);
    }
  }

  // ------------------------------------------------------------------ the six patterns

  lemma MatchIs(r: Regex, s: Text, i: nat, j: nat, ic: bool)
    requires i <= |s|
    ensures j in Ends(r, s, i, ic) <==> i <= j <= |s| && Matches(r, s, i, j, ic)
  {
    if j in Ends(r, s, i, ic) {
      var k :| 0 <= k < |Ends(r, s, i, ic)| && Ends(r, s, i, ic)[k] == j;
    }
    if i <= j <= |s| {
      EndsAreMatches(r, s, i, j, ic);
    }
  }

  lemma UuidIsGreedy(s: Text)
    ensures Greedy(UUID, s, true)
  {
    var fields: seq<(nat, Unit)> := [(8, 45), (4, 45), (4, 45), (4, 45)];
    UuidHasFields(fields);
    RunIsGreedy(HexDigit, 12, AtMost(12), s, true);
    FieldsAreGreedy(HexDigit, fields, Times(HexDigit, 12), s, true);
  }

  lemma FractionIsGreedy(r: Regex, s: Text)
    requires r == Point(Repeat(Char(Digit), 1, Unbounded, true))
    ensures Greedy(Maybe(r), s, false)
  {
    RunIsGreedy(Digit, 1, Unbounded, s, false);
    CharIsSingle(One(46), s, false);
    AfterSingle(Char(One(46)), r.second, s, false);
    MaybeIsGreedy(r, s, false);
  }

  /** A sign and an offset, with a colon or without. */
  lemma OffsetIsGreedy(r: Regex, rest: Regex, colon: Regex, last: Regex, s: Text)
    requires r == Cat(Times(Digit, 2), rest) && rest == Cat(Maybe(colon), last)
    requires last == Times(Digit, 2) && colon == Char(One(58))
    ensures Greedy(r, s, false)
  {
    TimesIsSingle(Digit, 2, s, false);
    CharIsSingle(One(58), s, false);
    MaybeIsGreedy(colon, s, false);
    forall i: nat, e, f
      | i <= |s| && e in Ends(Maybe(colon), s, i, false) && f in Ends(Maybe(colon), s, i, false) && e > f
      ensures EndsLater(last, s, e, f, false)
    {
      forall j, k | j in Ends(last, s, e, false) && k in Ends(last, s, f, false) ensures j > k {
        MatchIs(last, s, e, j, false);
        MatchIs(last, s, f, k, false);
        TimesIs(Digit, 2, s, e, j, false);
        TimesIs(Digit, 2, s, f, k, false);
      }
    }
    GreedyCat(Maybe(colon), last, s, false);
    AfterSingle(Times(Digit, 2), rest, s, false);
  }

  lemma ZoneIsGreedy(z: Regex, plus: Regex, offset: Regex, s: Text)
    requires z == Char(One(90)) && plus == Cat(Char(Sign), offset) && Greedy(offset, s, false)
    ensures Greedy(Maybe(Either(z, plus)), s, false)
  {
    CharIsSingle(Sign, s, false);
    AfterSingle(Char(Sign), offset, s, false);
    forall i: nat | i <= |s| ensures Falling(Ends(Either(z, plus), s, i, false)) {
      if i < |s| && s[i] == 90 {
        NoSignThere(plus, offset, s, i);
      }
    }
    MaybeIsGreedy(Either(z, plus), s, false);
  }

  lemma NoSignThere(plus: Regex, offset: Regex, s: Text, i: nat)
    requires plus == Cat(Char(Sign), offset) && i < |s| && s[i] == 90
    ensures Ends(plus, s, i, false) == []
  {
  }

  lemma NoZoneWithin(s: Text, i: nat, e: nat, f: nat, k: nat)
    requires IsFraction(s, i, e) && i <= f < e && f <= k <= |s| && IsZone(s, f, k)
    ensures k < e
  {
  }

  /** A zone cannot begin within a fraction. */
  lemma RestIsGreedy(rest: Regex, s: Text)
    requires rest == ZONE
    ensures Greedy(rest, s, false)
  {
    var fraction, zone := rest.first, rest.second;
    var plus := zone.body.right;
    FractionIsGreedy(fraction.body, s);
    OffsetIsGreedy(plus.second, plus.second.second, plus.second.second.first.body, plus.second.second.second, s);
    ZoneIsGreedy(zone.body.left, plus, plus.second, s);
    forall i: nat, e, f | i <= |s| && e in Ends(fraction, s, i, false) && f in Ends(fraction, s, i, false) && e > f
      ensures EndsLater(zone, s, e, f, false)
    {
      MatchIs(fraction, s, i, e, false);
      MatchIs(fraction, s, i, f, false);
      FractionIs(s, i, e, fraction.body);
      forall j, k | j in Ends(zone, s, e, false) && k in Ends(zone, s, f, false) ensures j > k {
        MatchIs(zone, s, e, j, false);
        MatchIs(zone, s, f, k, false);
        ZoneIs(zone.body.left, plus, plus.second, plus.second.second.first.body, plus.second.second.second, s, f, k);
        NoZoneWithin(s, i, e, f, k);
      }
    }
    GreedyCat(fraction, zone, s, false);
  }

  lemma TimestampIsGreedy(s: Text, r: Regex, rest: Regex)
    requires rest == ZONE && r == Instant(rest)
    ensures Greedy(r, s, false)
  {
    var fields: seq<(nat, Unit)> := [(4, 45), (2, 45), (2, 84), (2, 58), (2, 58)];
    InstantHasFields(fields, rest);
    RestIsGreedy(rest, s);
    TimesIsSingle(Digit, 2, s, false);
    AfterSingle(Times(Digit, 2), rest, s, false);
    FieldsAreGreedy(Digit, fields, Cat(Times(Digit, 2), rest), s, false);
  }

  /** A top-level domain holds no point, so that the one behind the last point ends last. */
  lemma HostEnds(s: Text, i: nat, e: nat, f: nat, j: nat, k: nat)
    requires IsHostWith(s, i, e, j) && IsHostWith(s, i, f, k) && e > f
    ensures j > k
  {
  }

  lemma HostIsGreedy(host: Regex, name: Regex, rest: Regex, last: Regex, s: Text)
    requires host == Cat(name, rest) && rest == Cat(Char(One(46)), last)
    requires name == Repeat(Char(Domain), 1, AtMost(255), true) && last == Repeat(Char(Letter), 2, AtMost(24), true)
    ensures Greedy(host, s, true)
  {
    RunIsGreedy(Domain, 1, AtMost(255), s, true);
    RunIsGreedy(Letter, 2, AtMost(24), s, true);
    CharIsSingle(One(46), s, true);
    AfterSingle(Char(One(46)), last, s, true);
    forall i: nat, e, f | i <= |s| && e in Ends(name, s, i, true) && f in Ends(name, s, i, true) && e > f
      ensures EndsLater(rest, s, e, f, true)
    {
      forall j, k | j in Ends(rest, s, e, true) && k in Ends(rest, s, f, true) ensures j > k {
        HostMatches(name, rest, last, s, i, e, j);
        HostMatches(name, rest, last, s, i, f, k);
        HostEnds(s, i, e, f, j, k);
      }
    }
    GreedyCat(name, rest, s, true);
  }

  lemma HostMatches(name: Regex, rest: Regex, last: Regex, s: Text, i: nat, e: nat, j: nat)
    requires i <= |s| && e in Ends(name, s, i, true) && j in Ends(rest, s, e, true)
    requires rest == Cat(Char(One(46)), last)
    requires name == Repeat(Char(Domain), 1, AtMost(255), true) && last == Repeat(Char(Letter), 2, AtMost(24), true)
    ensures IsHostWith(s, i, e, j)
  {
    MatchIs(name, s, i, e, true);
    MatchIs(rest, s, e, j, true);
    HostSplits(name, rest, last, s, i, e, j);
  }

  /** A local part holds no @, so that only one end of it can be followed by one. */
  lemma EmailIsGreedy(email: Regex, name: Regex, rest: Regex, host: Regex, s: Text)
    requires email == Cat(name, rest) && rest == Cat(Char(One(64)), host)
    requires name == Repeat(Char(LocalPart), 1, AtMost(64), true) && Greedy(host, s, true)
    ensures Greedy(email, s, true)
  {
    RunIsGreedy(LocalPart, 1, AtMost(64), s, true);
    CharIsSingle(One(64), s, true);
    AfterSingle(Char(One(64)), host, s, true);
    forall i: nat, e, f | i <= |s| && e in Ends(name, s, i, true) && f in Ends(name, s, i, true) && e > f
      ensures EndsLater(rest, s, e, f, true)
    {
      MatchIs(name, s, i, e, true);
      MatchIs(name, s, i, f, true);
      RunIs(LocalPart, 1, AtMost(64), s, i, e, true);
      NoAtThere(rest, host, s, f);
    }
    GreedyCat(name, rest, s, true);
  }

  lemma NoAtThere(rest: Regex, host: Regex, s: Text, f: nat)
    requires rest == Cat(Char(One(64)), host) && f < |s| && In(LocalPart, s[f], true)
    ensures Ends(rest, s, f, true) == []
  {
  }

  // ------------------------------------------------- between borders there is one end

  lemma NoBorderWithin(s: Text, i: nat, j: nat, k: nat)
    requires i < j < k && Hexes(s, i, k)
    ensures !IsBorder(s, j)
  {
    assert IsHex(s[j - 1]) && IsHex(s[j]);
  }

  lemma BorderIsOne(s: Text, i: nat, j: nat, k: nat)
    requires i < j <= |s| && k <= |s| && IsBorder(s, j) && Hexes(s, i, k)
    ensures k <= j
  {
    if k > j {
      NoBorderWithin(s, i, j, k);
    }
  }

  lemma NoPointWithin(s: Text, i: nat, j: nat, k: nat)
    requires i <= j < k && Digits(s, i, k)
    ensures !Is(s, j, 46)
  {
  }

  lemma {:induction false} OctetsAreOne(s: Text, i: nat, j: nat, k: nat, n: nat)
    requires n > 0 && i <= j <= |s| && i <= k <= |s| && AreOctets(s, i, j, n) && AreOctets(s, i, k, n)
    requires IsBorder(s, j) && IsBorder(s, k)
    ensures j == k
    decreases n
  {
    var e: nat :| Between(i, e, j) && Is(s, i, 46) && IsOctet(s, i + 1, e) && AreOctets(s, e, j, n - 1);
    var f: nat :| Between(i, f, k) && Is(s, i, 46) && IsOctet(s, i + 1, f) && AreOctets(s, f, k, n - 1);
    if n == 1 {
      OctetEnds(s, i + 1, j, k);
    } else {
      assert Is(s, e, 46) && Is(s, f, 46);
      OctetsEnd(s, i + 1, e, f);
      OctetsAreOne(s, e, j, k, n - 1);
    }
  }

  lemma OctetEnds(s: Text, i: nat, j: nat, k: nat)
    requires IsOctet(s, i, j) && IsOctet(s, i, k) && IsBorder(s, j) && IsBorder(s, k)
    ensures j == k
  {
    BorderIsOne(s, i, j, k);
    BorderIsOne(s, i, k, j);
  }

  lemma OctetsEnd(s: Text, i: nat, e: nat, f: nat)
    requires IsOctet(s, i, e) && IsOctet(s, i, f) && Is(s, e, 46) && Is(s, f, 46)
    ensures e == f
  {
    if e < f {
      NoPointWithin(s, i, e, f);
    } else if f < e {
      NoPointWithin(s, i, f, e);
    }
  }

  lemma IpsAreOne(s: Text, i: nat, j: nat, k: nat)
    requires i <= j <= |s| && i <= k <= |s| && IsIp(s, i, j) && IsIp(s, i, k)
    ensures j == k
  {
    var e: nat :| Between(i, e, j) && IsOctet(s, i, e) && AreOctets(s, e, j, 3);
    var f: nat :| Between(i, f, k) && IsOctet(s, i, f) && AreOctets(s, f, k, 3);
    assert Is(s, e, 46) && Is(s, f, 46);
    OctetsEnd(s, i, e, f);
    OctetsAreOne(s, e, j, k, 3);
  }

  // ------------------------------------------------------------------ what is replaced

  lemma GreedyIsLongest(r: Regex, s: Text, i: nat, j: nat, ic: bool)
    requires i <= |s| && Greedy(r, s, ic) && j in Ends(r, s, i, ic)
    ensures j <= Ends(r, s, i, ic)[0]
  {
    var es := Ends(r, s, i, ic);
    var x :| 0 <= x < |es| && es[x] == j;
    assert x > 0 ==> es[0] > es[x];
  }

  lemma OneIsLongest(k: Kind, s: Text, i: nat, j: nat, e: nat)
    requires k in [Ip, Hex, Id] && i <= j <= |s| && i <= e <= |s| && IsValue(k, s, i, j) && IsValue(k, s, i, e)
    ensures j == e
  {
    if k == Ip {
      IpsAreOne(s, i, j, e);
    } else {
      BorderIsOne(s, i, j, e);
      BorderIsOne(s, i, e, j);
    }
  }

  /** The match that the engine comes to first is a value, and no value from the same
      position is longer. */
  lemma FirstIsLongest(k: Kind, r: Regex, s: Text, i: nat, j: nat)
    requires i <= |s| && r == Pattern(k) && j in Ends(r, s, i, IgnoresCase(k))
    ensures j <= Ends(r, s, i, IgnoresCase(k))[0]
  {
    match k
    case Uuid =>
      UuidIsGreedy(s);
      GreedyIsLongest(r, s, i, j, true);
    case Timestamp =>
      TimestampIsGreedy(s, r, ZONE);
      GreedyIsLongest(r, s, i, j, false);
    case Email =>
      var host := r.second.second;
      HostIsGreedy(host, host.first, host.second, host.second.second, s);
      EmailIsGreedy(r, r.first, r.second, host, s);
      GreedyIsLongest(r, s, i, j, true);
    case _ =>
      var e := Ends(r, s, i, IgnoresCase(k))[0];
      assert e in Ends(r, s, i, IgnoresCase(k));
      MatchIs(r, s, i, j, IgnoresCase(k));
      MatchIs(r, s, i, e, IgnoresCase(k));
      PatternIs(k, s, i, j);
      PatternIs(k, s, i, e);
      OneIsLongest(k, s, i, j, e);
  }

  /** No value begins before `p` at or after `i`, and from there on none is longer. */
  ghost predicate IsNextValue(k: Kind, s: Text, i: nat, p: nat, q: nat) {
    && i <= p <= q <= |s| && IsValue(k, s, p, q)
    && (forall x: nat, y: nat :: i <= x < p && x <= y <= |s| ==> !IsValue(k, s, x, y))
    && forall y: nat :: p <= y <= |s| && IsValue(k, s, p, y) ==> y <= q
  }

  lemma ValueIsMatch(k: Kind, r: Regex, s: Text, i: nat, j: nat)
    requires r == Pattern(k) && i <= j <= |s|
    ensures IsValue(k, s, i, j) <==> j in Ends(r, s, i, IgnoresCase(k))
  {
    PatternIs(k, s, i, j);
    EndsAreMatches(r, s, i, j, IgnoresCase(k));
  }

  lemma NoValueThere(k: Kind, r: Regex, s: Text, i: nat)
    requires r == Pattern(k) && i <= |s| && Ends(r, s, i, IgnoresCase(k)) == []
    ensures forall y: nat :: i <= y <= |s| ==> !IsValue(k, s, i, y)
  {
    forall y: nat | i <= y <= |s| ensures !IsValue(k, s, i, y) {
      ValueIsMatch(k, r, s, i, y);
    }
  }

  lemma FirstIsNext(k: Kind, r: Regex, s: Text, i: nat, p: nat, q: nat)
    requires r == Pattern(k) && MinLength(r) > 0 && i <= |s| && Search(r, s, i, IgnoresCase(k)) == Some(p)
    requires q == Ends(r, s, p, IgnoresCase(k))[0]
    ensures IsNextValue(k, s, i, p, q) && p < q
  {
    EndAdvances(r, s, p, IgnoresCase(k));
    assert q in Ends(r, s, p, IgnoresCase(k));
    ValueIsMatch(k, r, s, p, q);
    forall x: nat, y: nat | i <= x < p && x <= y <= |s| ensures !IsValue(k, s, x, y) {
      NoValueThere(k, r, s, x);
    }
    forall y: nat | p <= y <= |s| && IsValue(k, s, p, y) ensures y <= q {
      ValueIsMatch(k, r, s, p, y);
      FirstIsLongest(k, r, s, p, y);
    }
  }

  /** A pass puts its token in the place of the leftmost longest value and goes on behind
      it; without a value it leaves the text as it is. */
  lemma PassReplaces(k: Kind, r: Regex, s: Text, i: nat) returns (p: nat, q: nat)
    requires i <= |s| && r == Pattern(k) && MinLength(r) > 0
    ensures IsNextValue(k, s, i, p, q)
            ==> p < q && ReplaceFrom(r, Token(k), s, i, IgnoresCase(k))
                == s[i..p] + Token(k) + ReplaceFrom(r, Token(k), s, q, IgnoresCase(k))
    ensures !IsNextValue(k, s, i, p, q)
            ==> ReplaceFrom(r, Token(k), s, i, IgnoresCase(k)) == s[i..]
                && forall x: nat, y: nat :: i <= x <= y <= |s| ==> !IsValue(k, s, x, y)
  {
    var found := Search(r, s, i, IgnoresCase(k));
    if found.None? {
      p, q := i, i;
      forall x: nat, y: nat | i <= x <= y <= |s| ensures !IsValue(k, s, x, y) {
        NoValueThere(k, r, s, x);
      }
    } else {
      p := found.value;
      q := Ends(r, s, p, IgnoresCase(k))[0];
      FirstIsNext(k, r, s, i, p, q);
    }
  }
}
