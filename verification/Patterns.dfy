/**
  What the six patterns of the preprocessing match, character by character
  (services/api/src/pipeline/preprocess.ts:10-48), and what the expressions match that
  their tokens are compiled into (services/api/src/connectors/template-regex.ts:14-22).
*/
module Patterns {
  import opened Base
  import opened Regex
  import opened Preprocess
  import opened Drilldown

  predicate IsHex(c: Unit) { 48 <= c <= 57 || 65 <= c <= 70 || 97 <= c <= 102 }

  /** A letter or digit, or one of a few marks. */
  predicate IsNamePart(c: Unit, marks: seq<Unit>) { 48 <= c <= 57 || 65 <= c <= 90 || 97 <= c <= 122 || c in marks }

  predicate Digits(s: Text, i: nat, j: nat) { i <= j <= |s| && forall x :: i <= x < j ==> 48 <= s[x] <= 57 }

  predicate Hexes(s: Text, i: nat, j: nat) { i <= j <= |s| && forall x :: i <= x < j ==> IsHex(s[x]) }

  predicate Letters(s: Text, i: nat, j: nat) {
    i <= j <= |s| && forall x :: i <= x < j ==> 65 <= s[x] <= 90 || 97 <= s[x] <= 122
  }

  predicate Names(s: Text, i: nat, j: nat, marks: seq<Unit>) {
    i <= j <= |s| && forall x :: i <= x < j ==> IsNamePart(s[x], marks)
  }

  /** The text of a token. */
  lemma TokenSpells(k: Kind, t: string)
    requires t == match k case Uuid => "<UUID>" case Timestamp => "<TS>" case Email => "<EMAIL>" case Ip => "<IP>"
                          case Hex => "<HEX>" case Id => "<ID>"
    ensures |Token(k)| == |t| && forall i :: 0 <= i < |t| ==> Token(k)[i] as int == t[i] as int
  {
  }

  predicate Is(s: Text, i: nat, c: Unit) { i < |s| && s[i] == c }

  // ---------------------------------------------------------- what each one means

  /** A mark; where case is ignored, a t may stand for a T. */
  predicate IsMark(s: Text, i: nat, c: Unit, ic: bool) { Is(s, i, c) || (ic && c == 84 && Is(s, i, 116)) }

  /** Runs of digits, decimal or hexadecimal, each of a length and before a mark. */
  predicate FieldsAt(hex: bool, fields: seq<(nat, Unit)>, s: Text, i: nat, ic: bool) {
    || fields == []
    || (var (n, mark) := fields[0];
        && (if hex then Hexes(s, i, i + n) else Digits(s, i, i + n)) && IsMark(s, i + n, mark, ic)
        && FieldsAt(hex, fields[1..], s, i + n + 1, ic))
  }

  /** 8, 4, 4, 4 and 12 hexadecimal digits with dashes in between. */
  predicate IsUuid(s: Text, i: nat, j: nat) {
    j == i + 36 && FieldsAt(true, [(8, 45), (4, 45), (4, 45), (4, 45)], s, i, true) && Hexes(s, i + 24, j)
  }

  /** A date, a T and a time to the second. */
  predicate IsInstant(s: Text, i: nat, ic: bool) {
    FieldsAt(false, [(4, 45), (2, 45), (2, 84), (2, 58), (2, 58)], s, i, ic) && Digits(s, i + 17, i + 19)
  }

  /** Nothing, or a point and digits. */
  predicate IsFraction(s: Text, i: nat, j: nat) { i == j || (Is(s, i, 46) && i + 2 <= j && Digits(s, i + 1, j)) }

  /** Nothing, a Z, or a sign and an offset with a colon or without. */
  predicate IsZone(s: Text, i: nat, j: nat) {
    || i == j || (j == i + 1 && Is(s, i, 90))
    || ((Is(s, i, 43) || Is(s, i, 45)) && Digits(s, i + 1, i + 3)
        && ((j == i + 5 && Digits(s, i + 3, j)) || (j == i + 6 && Is(s, i + 3, 58) && Digits(s, i + 4, j))))
  }

  ghost predicate IsRest(s: Text, i: nat, j: nat) {
    exists e: nat :: Between(i, e, j) && IsFraction(s, i, e) && IsZone(s, e, j)
  }

  ghost predicate IsTimestamp(s: Text, i: nat, j: nat) { IsInstant(s, i, false) && i + 19 <= j && IsRest(s, i + 19, j) }

  /** From 1 to 64 characters before an @. */
  predicate IsLocal(s: Text, i: nat, at: nat) {
    i + 1 <= at <= i + 64 && Names(s, i, at, [46, 95, 37, 43, 45]) && Is(s, at, 64)
  }

  /** From 1 to 255 characters, a point and from 2 to 24 letters. */
  predicate IsHostWith(s: Text, i: nat, point: nat, j: nat) {
    && i + 1 <= point <= i + 255 && Names(s, i, point, [46, 45]) && Is(s, point, 46)
    && point + 3 <= j <= point + 25 && Letters(s, point + 1, j)
  }

  ghost predicate IsHost(s: Text, i: nat, j: nat) {
    exists point: nat :: Between(i, point, j) && IsHostWith(s, i, point, j)
  }

  ghost predicate IsEmail(s: Text, i: nat, j: nat) {
    exists at: nat :: Between(i, at, j) && IsLocal(s, i, at) && IsHost(s, at + 1, j)
  }

  /** Where a word character meets anything else. */
  predicate IsBorder(s: Text, i: nat) {
    (i > 0 && i <= |s| && IsNamePart(s[i - 1], [95])) != (i < |s| && IsNamePart(s[i], [95]))
  }

  predicate IsOctet(s: Text, i: nat, j: nat) { i + 1 <= j <= i + 3 && Digits(s, i, j) }

  /** `n` more octets, each after a point. */
  ghost predicate AreOctets(s: Text, i: nat, j: nat, n: nat)
    decreases n
  {
    if n == 0 then i == j
    else
      exists e: nat :: Between(i, e, j) && Is(s, i, 46) && IsOctet(s, i + 1, e) && AreOctets(s, e, j, n - 1)
  }

  ghost predicate OctetsFrom(s: Text, i: nat, j: nat, n: nat) {
    exists e: nat :: Between(i, e, j) && IsOctet(s, i, e) && AreOctets(s, e, j, n)
  }

  ghost predicate IsIp(s: Text, i: nat, j: nat) { IsBorder(s, i) && IsBorder(s, j) && OctetsFrom(s, i, j, 3) }

  ghost predicate IsValue(k: Kind, s: Text, i: nat, j: nat) {
    match k
    case Uuid => IsUuid(s, i, j)
    case Timestamp => IsTimestamp(s, i, j)
    case Email => IsEmail(s, i, j)
    case Ip => IsIp(s, i, j)
    case Hex => IsBorder(s, i) && IsBorder(s, j) && Hexes(s, i, j) && j - i >= 16
    case Id => IsBorder(s, i) && IsBorder(s, j) && Digits(s, i, j) && j - i >= 6
  }

  // ------------------------------------------------------------------------- runs

  predicate All(k: CharClass, s: Text, i: nat, j: nat, ic: bool) {
    i <= j <= |s| && forall x :: i <= x < j ==> In(k, s[x], ic)
  }

  /** Copies of a class are a run of its characters. */
  lemma {:induction false} RunIs(k: CharClass, min: nat, max: Bound, s: Text, i: nat, j: nat, ic: bool)
    requires i <= j <= |s| && (max.AtMost? ==> min <= max.n)
    ensures Copies(Char(k), min, max, s, i, j, ic)
            <==> All(k, s, i, j, ic) && min <= j - i && (max.AtMost? ==> j - i <= max.n)
    decreases j - i
  {
    if i < j && max != AtMost(0) {
      RunIs(k, Pred(min), Dec(max), s, i + 1, j, ic);
      assert Between(i, i + 1, j);
    }
  }

  lemma TimesIs(k: CharClass, n: nat, s: Text, i: nat, j: nat, ic: bool)
    requires i <= j <= |s|
    ensures Matches(Times(k, n), s, i, j, ic) <==> j == i + n && All(k, s, i, j, ic)
  {
    RunIs(k, n, AtMost(n), s, i, j, ic);
  }

  /** A run of fixed length and what follows it. */
  lemma TimesThen(k: CharClass, n: nat, r: Regex, s: Text, i: nat, j: nat, ic: bool)
    requires i <= j <= |s|
    ensures Matches(Cat(Times(k, n), r), s, i, j, ic)
            <==> i + n <= j && All(k, s, i, i + n, ic) && Matches(r, s, i + n, j, ic)
  {
    forall e: nat | Between(i, e, j) ensures Matches(Times(k, n), s, i, e, ic) <==> e == i + n && All(k, s, i, e, ic) {
      TimesIs(k, n, s, i, e, ic);
    }
    assert i + n <= j ==> Between(i, i + n, j);
  }

  lemma CharThen(k: CharClass, r: Regex, s: Text, i: nat, j: nat, ic: bool)
    requires i <= j <= |s|
    ensures Matches(Cat(Char(k), r), s, i, j, ic) <==> i < j && In(k, s[i], ic) && Matches(r, s, i + 1, j, ic)
  {
    assert i < j ==> Between(i, i + 1, j);
  }

  lemma EmptyOr(r: Regex, s: Text, i: nat, j: nat, ic: bool)
    requires i <= j <= |s|
    ensures Matches(Maybe(r), s, i, j, ic) <==> i == j || Matches(r, s, i, j, ic)
  {
    forall e: nat | Between(i, e, j)
      ensures Copies(r, Pred(0), Dec(AtMost(1)), s, e, j, ic) <==> e == j
    {
    }
    assert Between(i, j, j);
  }

  // ------------------------------------------------------------------- the patterns

  function Width(fields: seq<(nat, Unit)>): nat { if fields == [] then 0 else fields[0].0 + 1 + Width(fields[1..]) }

  function FieldsThen(k: CharClass, fields: seq<(nat, Unit)>, r: Regex): Regex {
    if fields == [] then r
    else Cat(Times(k, fields[0].0), Cat(Char(One(fields[0].1)), FieldsThen(k, fields[1..], r)))
  }

  lemma MarkThen(mark: Unit, r: Regex, s: Text, i: nat, j: nat, ic: bool)
    requires i <= j <= |s| && mark in [45, 58, 84]
    ensures Matches(Cat(Char(One(mark)), r), s, i, j, ic)
            <==> i < j && IsMark(s, i, mark, ic) && Matches(r, s, i + 1, j, ic)
  {
    CharThen(One(mark), r, s, i, j, ic);
  }

  lemma FieldIs(hex: bool, k: CharClass, n: nat, mark: Unit, r: Regex, rest: Regex, s: Text, i: nat, j: nat, ic: bool)
    requires i <= j <= |s| && k == (if hex then HexDigit else Digit) && mark in [45, 58, 84]
    requires r == Cat(Times(k, n), Cat(Char(One(mark)), rest))
    ensures Matches(r, s, i, j, ic)
            <==> i + n < j && (if hex then Hexes(s, i, i + n) else Digits(s, i, i + n)) && IsMark(s, i + n, mark, ic)
                 && Matches(rest, s, i + n + 1, j, ic)
  {
    TimesThen(k, n, Cat(Char(One(mark)), rest), s, i, j, ic);
    if i + n <= j {
      MarkThen(mark, rest, s, i + n, j, ic);
    }
  }

  lemma {:induction false} FieldsThenIs(hex: bool, k: CharClass, fields: seq<(nat, Unit)>, r: Regex, s: Text, i: nat,
        j: nat, ic: bool)
    requires i <= j <= |s| && k == (if hex then HexDigit else Digit) && forall f :: f in fields ==> f.1 in [45, 58, 84]
    ensures Matches(FieldsThen(k, fields, r), s, i, j, ic)
            <==> FieldsAt(hex, fields, s, i, ic) && i + Width(fields) <= j && Matches(r, s, i + Width(fields), j, ic)
  {
    if fields != [] {
      var n, mark := fields[0].0, fields[0].1;
      FieldIs(hex, k, n, mark, FieldsThen(k, fields, r), FieldsThen(k, fields[1..], r), s, i, j, ic);
      if i + n < j {
        FieldsThenIs(hex, k, fields[1..], r, s, i + n + 1, j, ic);
      }
    }
  }

  lemma UuidIs(s: Text, i: nat, j: nat)
    requires i <= j <= |s|
    ensures Matches(UUID, s, i, j, true) <==> IsUuid(s, i, j)
  {
    var fields: seq<(nat, Unit)> := [(8, 45), (4, 45), (4, 45), (4, 45)];
    UuidHasFields(fields);
    FieldsThenIs(true, HexDigit, fields, Times(HexDigit, 12), s, i, j, true);
    if i + 24 <= j {
      TimesIs(HexDigit, 12, s, i + 24, j, true);
    }
  }

  lemma FieldFirst(k: CharClass, n: nat, mark: Unit, fields: seq<(nat, Unit)>, all: seq<(nat, Unit)>, r: Regex,
        rest: Regex, width: nat)
    requires all == [(n, mark)] + fields && rest == FieldsThen(k, fields, r) && width == Width(fields)
    ensures FieldsThen(k, all, r) == Cat(Times(k, n), Cat(Char(One(mark)), rest)) && Width(all) == n + 1 + width
  {
    assert all[1..] == fields;
  }

  lemma UuidHasFields(fields: seq<(nat, Unit)>)
    requires fields == [(8, 45), (4, 45), (4, 45), (4, 45)]
    ensures UUID == FieldsThen(HexDigit, fields, Times(HexDigit, 12)) && Width(fields) == 24
  {
    var last := Times(HexDigit, 12);
    var a := Cat(Times(HexDigit, 4), Dash(last));
    var b := Cat(Times(HexDigit, 4), Dash(a));
    var c := Cat(Times(HexDigit, 4), Dash(b));
    FieldFirst(HexDigit, 4, 45, [], [(4, 45)], last, last, 0);
    FieldFirst(HexDigit, 4, 45, [(4, 45)], [(4, 45), (4, 45)], last, a, 5);
    FieldFirst(HexDigit, 4, 45, [(4, 45), (4, 45)], [(4, 45), (4, 45), (4, 45)], last, b, 10);
    FieldFirst(HexDigit, 8, 45, [(4, 45), (4, 45), (4, 45)], fields, last, c, 15);
  }

  lemma InstantHasFields(fields: seq<(nat, Unit)>, r: Regex)
    requires fields == [(4, 45), (2, 45), (2, 84), (2, 58), (2, 58)]
    ensures Instant(r) == FieldsThen(Digit, fields, Cat(Times(Digit, 2), r)) && Width(fields) == 17
  {
    var last := Cat(Times(Digit, 2), r);
    var a := Cat(Times(Digit, 2), Colon(last));
    var b := Cat(Times(Digit, 2), Colon(a));
    var c := Cat(Times(Digit, 2), Cat(Char(One(84)), b));
    var d := Cat(Times(Digit, 2), Dash(c));
    FieldFirst(Digit, 2, 58, [], [(2, 58)], last, last, 0);
    FieldFirst(Digit, 2, 58, [(2, 58)], [(2, 58), (2, 58)], last, a, 3);
    FieldFirst(Digit, 2, 84, [(2, 58), (2, 58)], [(2, 84), (2, 58), (2, 58)], last, b, 6);
    FieldFirst(Digit, 2, 45, [(2, 84), (2, 58), (2, 58)], [(2, 45), (2, 84), (2, 58), (2, 58)], last, c, 9);
    FieldFirst(Digit, 4, 45, [(2, 45), (2, 84), (2, 58), (2, 58)], fields, last, d, 12);
  }

  lemma FractionIs(s: Text, i: nat, j: nat, r: Regex)
    requires i <= j <= |s| && r == Point(Repeat(Char(Digit), 1, Unbounded, true))
    ensures Matches(Maybe(r), s, i, j, false) <==> IsFraction(s, i, j)
  {
    EmptyOr(r, s, i, j, false);
    CharThen(One(46), r.second, s, i, j, false);
    if i < j {
      RunIs(Digit, 1, Unbounded, s, i + 1, j, false);
    }
  }

  /** An offset: two digits, a colon or none, and two more. */
  lemma OffsetIs(r: Regex, colon: Regex, last: Regex, s: Text, i: nat, j: nat)
    requires i <= j <= |s| && r == Cat(Times(Digit, 2), Cat(Maybe(colon), last))
    requires last == Times(Digit, 2) && colon == Char(One(58))
    ensures Matches(r, s, i, j, false)
            <==> && i + 2 <= j && Digits(s, i, i + 2)
                 && ((j == i + 4 && Digits(s, i + 2, j)) || (j == i + 5 && Is(s, i + 2, 58) && Digits(s, i + 3, j)))
  {
    var m := i + 2;
    TimesThen(Digit, 2, Cat(Maybe(colon), last), s, i, j, false);
    if m <= j {
      forall e: nat | Between(m, e, j)
        ensures Matches(Maybe(colon), s, m, e, false) <==> e == m || (e == m + 1 && Is(s, m, 58))
        ensures Matches(last, s, e, j, false) <==> j == e + 2 && Digits(s, e, j)
      {
        EmptyOr(colon, s, m, e, false);
        TimesIs(Digit, 2, s, e, j, false);
      }
      assert Between(m, m, j) && (m < j ==> Between(m, m + 1, j));
    }
  }

  lemma ZoneIs(z: Regex, plus: Regex, offset: Regex, colon: Regex, last: Regex, s: Text, i: nat, j: nat)
    requires i <= j <= |s| && z == Char(One(90)) && plus == Cat(Char(Sign), offset)
    requires offset == Cat(Times(Digit, 2), Cat(Maybe(colon), last))
    requires last == Times(Digit, 2) && colon == Char(One(58))
    ensures Matches(Maybe(Either(z, plus)), s, i, j, false) <==> IsZone(s, i, j)
  {
    EmptyOr(Either(z, plus), s, i, j, false);
    CharThen(Sign, offset, s, i, j, false);
    if i < j {
      OffsetIs(offset, colon, last, s, i + 1, j);
    }
  }

  lemma TimestampIs(s: Text, i: nat, j: nat, instant: Regex, rest: Regex)
    requires i <= j <= |s| && rest == ZONE && instant == Instant(rest)
    ensures Matches(instant, s, i, j, false) <==> IsTimestamp(s, i, j)
  {
    var fields: seq<(nat, Unit)> := [(4, 45), (2, 45), (2, 84), (2, 58), (2, 58)];
    InstantHasFields(fields, rest);
    if i + 19 <= j {
      RestIs(s, i + 19, j, rest);
    }
    FieldsAndRest(s, i, j, fields, instant, Cat(Times(Digit, 2), rest), rest, false);
  }

  lemma FieldsAndRest(s: Text, i: nat, j: nat, fields: seq<(nat, Unit)>, instant: Regex, last: Regex, rest: Regex,
        ic: bool)
    requires fields == [(4, 45), (2, 45), (2, 84), (2, 58), (2, 58)]
    requires i <= j <= |s| && Width(fields) == 17 && last == Cat(Times(Digit, 2), rest)
    requires instant == FieldsThen(Digit, fields, last)
    ensures Matches(instant, s, i, j, ic)
            <==> FieldsAt(false, fields, s, i, ic) && Digits(s, i + 17, i + 19) && i + 19 <= j
                 && Matches(rest, s, i + 19, j, ic)
  {
    FieldsThenIs(false, Digit, fields, last, s, i, j, ic);
    if i + 17 <= j {
      TimesThen(Digit, 2, rest, s, i + 17, j, ic);
    }
  }

  lemma RestIs(s: Text, i: nat, j: nat, rest: Regex)
    requires i <= j <= |s| && rest == ZONE
    ensures Matches(rest, s, i, j, false) <==> IsRest(s, i, j)
  {
    var fraction, zone := rest.first.body, rest.second.body;
    var offset := zone.right.second;
    forall e: nat | Between(i, e, j)
      ensures Matches(rest.first, s, i, e, false) <==> IsFraction(s, i, e)
      ensures Matches(rest.second, s, e, j, false) <==> IsZone(s, e, j)
    {
      FractionIs(s, i, e, fraction);
      ZoneIs(zone.left, zone.right, offset, offset.second.first.body, offset.second.second, s, e, j);
    }
    SplitIs(rest, rest.first, rest.second, s, i, j, false);
  }

  /** A concatenation matches what some position splits. */
  lemma SplitIs(r: Regex, a: Regex, b: Regex, s: Text, i: nat, j: nat, ic: bool)
    requires i <= j <= |s| && r == Cat(a, b)
    ensures Matches(r, s, i, j, ic)
            <==> exists e: nat :: Between(i, e, j) && Matches(a, s, i, e, ic) && Matches(b, s, e, j, ic)
  {
  }

  // ---- email addresses

  lemma HostSplits(name: Regex, rest: Regex, last: Regex, s: Text, i: nat, e: nat, j: nat)
    requires i <= e <= j <= |s| && rest == Cat(Char(One(46)), last)
    requires name == Repeat(Char(Domain), 1, AtMost(255), true) && last == Repeat(Char(Letter), 2, AtMost(24), true)
    ensures Matches(name, s, i, e, true) && Matches(rest, s, e, j, true) <==> IsHostWith(s, i, e, j)
  {
    RunIs(Domain, 1, AtMost(255), s, i, e, true);
    CharThen(One(46), last, s, e, j, true);
    if e < j {
      RunIs(Letter, 2, AtMost(24), s, e + 1, j, true);
    }
  }

  lemma HostIs(host: Regex, name: Regex, rest: Regex, last: Regex, s: Text, i: nat, j: nat)
    requires i <= j <= |s| && host == Cat(name, rest) && rest == Cat(Char(One(46)), last)
    requires name == Repeat(Char(Domain), 1, AtMost(255), true) && last == Repeat(Char(Letter), 2, AtMost(24), true)
    ensures Matches(host, s, i, j, true) <==> IsHost(s, i, j)
  {
    forall e: nat | Between(i, e, j)
      ensures Matches(name, s, i, e, true) && Matches(rest, s, e, j, true) <==> IsHostWith(s, i, e, j)
    {
      HostSplits(name, rest, last, s, i, e, j);
    }
    SplitIs(host, name, rest, s, i, j, true);
  }

  ghost predicate MeansHost(host: Regex, s: Text) {
    forall i: nat, j: nat :: i <= j <= |s| ==> Matches(host, s, i, j, true) == IsHost(s, i, j)
  }

  lemma EmailSplits(name: Regex, rest: Regex, host: Regex, s: Text, i: nat, at: nat, j: nat)
    requires i <= at <= j <= |s| && name == Repeat(Char(LocalPart), 1, AtMost(64), true)
    requires rest == Cat(Char(One(64)), host) && MeansHost(host, s)
    ensures Matches(name, s, i, at, true) && Matches(rest, s, at, j, true)
            <==> IsLocal(s, i, at) && IsHost(s, at + 1, j)
  {
    RunIs(LocalPart, 1, AtMost(64), s, i, at, true);
    CharThen(One(64), host, s, at, j, true);
  }

  lemma EmailIs(s: Text, i: nat, j: nat, email: Regex)
    requires i <= j <= |s| && email == EMAIL
    ensures Matches(email, s, i, j, true) <==> IsEmail(s, i, j)
  {
    var host := email.second.second;
    forall x: nat, y: nat | x <= y <= |s| ensures Matches(host, s, x, y, true) == IsHost(s, x, y) {
      HostIs(host, host.first, host.second, host.second.second, s, x, y);
    }
    forall at: nat | Between(i, at, j)
      ensures Matches(email.first, s, i, at, true) && Matches(email.second, s, at, j, true)
              <==> IsLocal(s, i, at) && IsHost(s, at + 1, j)
    {
      EmailSplits(email.first, email.second, host, s, i, at, j);
    }
    SplitIs(email, email.first, email.second, s, i, j, true);
  }

  // ---- addresses and numbers

  lemma BoundedIs(r: Regex, body: Regex, s: Text, i: nat, j: nat, ic: bool)
    requires i <= j <= |s| && r == Bounded(body)
    ensures Matches(r, s, i, j, ic) <==> IsBorder(s, i) && IsBorder(s, j) && Matches(body, s, i, j, ic)
  {
    SplitIs(r, Edge, r.second, s, i, j, ic);
    SplitIs(r.second, body, Edge, s, i, j, ic);
    assert Between(i, i, j) && Between(i, j, j);
  }

  /** Copies of a point and an octet. */
  lemma {:induction false} OctetsAre(r: Regex, octet: Regex, n: nat, s: Text, i: nat, j: nat)
    requires i <= j <= |s| && r == Point(octet) && octet == OCTET
    ensures Copies(r, n, AtMost(n), s, i, j, false) <==> AreOctets(s, i, j, n)
  {
    if n > 0 {
      forall e: nat | Between(i, e, j)
        ensures Matches(r, s, i, e, false) <==> Is(s, i, 46) && IsOctet(s, i + 1, e)
        ensures Copies(r, n - 1, AtMost(n - 1), s, e, j, false) <==> AreOctets(s, e, j, n - 1)
      {
        CharThen(One(46), octet, s, i, e, false);
        if i < e {
          OctetIs(octet, s, i + 1, e);
        }
        OctetsAre(r, octet, n - 1, s, e, j);
      }
    }
  }

  lemma OctetIs(octet: Regex, s: Text, i: nat, j: nat)
    requires i <= j <= |s| && octet == OCTET
    ensures Matches(octet, s, i, j, false) <==> IsOctet(s, i, j)
  {
    RunIs(Digit, 1, AtMost(3), s, i, j, false);
  }

  lemma DottedIs(dotted: Regex, s: Text, i: nat, j: nat)
    requires i <= j <= |s| && dotted == DOTTED
    ensures Matches(dotted, s, i, j, false) <==> OctetsFrom(s, i, j, 3)
  {
    var octet, rest := dotted.first, dotted.second;
    forall e: nat | Between(i, e, j)
      ensures Matches(octet, s, i, e, false) <==> IsOctet(s, i, e)
      ensures Matches(rest, s, e, j, false) <==> AreOctets(s, e, j, 3)
    {
      OctetIs(octet, s, i, e);
      OctetsAre(rest.body, octet, 3, s, e, j);
    }
    SplitIs(dotted, octet, rest, s, i, j, false);
  }

  lemma BoundedRunIs(r: Regex, body: Regex, k: CharClass, n: nat, s: Text, i: nat, j: nat, ic: bool)
    requires i <= j <= |s| && r == Bounded(body) && body == Repeat(Char(k), n, Unbounded, true)
    ensures Matches(r, s, i, j, ic) <==> IsBorder(s, i) && IsBorder(s, j) && All(k, s, i, j, ic) && n <= j - i
  {
    BoundedIs(r, body, s, i, j, ic);
    RunIs(k, n, Unbounded, s, i, j, ic);
  }

  lemma IpIs(r: Regex, dotted: Regex, s: Text, i: nat, j: nat)
    requires i <= j <= |s| && r == Bounded(dotted) && dotted == DOTTED
    ensures Matches(r, s, i, j, false) <==> IsIp(s, i, j)
  {
    BoundedIs(r, dotted, s, i, j, false);
    DottedIs(dotted, s, i, j);
  }

  /** What the pattern of a pass matches. */
  lemma PatternIs(k: Kind, s: Text, i: nat, j: nat)
    requires i <= j <= |s|
    ensures Matches(Pattern(k), s, i, j, IgnoresCase(k)) <==> IsValue(k, s, i, j)
  {
    match k
    case Uuid => UuidIs(s, i, j);
    case Timestamp => TimestampIs(s, i, j, Pattern(k), ZONE);
    case Email => EmailIs(s, i, j, EMAIL);
    case Ip => IpIs(Pattern(k), DOTTED, s, i, j);
    case Hex => BoundedRunIs(Pattern(k), HEX_RUN, HexDigit, 16, s, i, j, true);
    case Id => BoundedRunIs(Pattern(k), ID_RUN, Digit, 6, s, i, j, false);
  }

  // --------------------------------------------- what a placeholder is compiled into

  /** One or more characters, an @ and one or more. */
  predicate IsLooseEmailWith(s: Text, i: nat, at: nat, j: nat) {
    && i + 1 <= at && Names(s, i, at, [46, 95, 37, 43, 45]) && Is(s, at, 64)
    && at + 2 <= j && Names(s, at + 1, j, [46, 45])
  }

  ghost predicate IsLooseEmail(s: Text, i: nat, j: nat) {
    exists at: nat :: Between(i, at, j) && IsLooseEmailWith(s, i, at, j)
  }

  predicate NoSpace(s: Text, i: nat, j: nat) { i <= j <= |s| && forall x :: i <= x < j ==> s[x] != 32 }

  /** What the expression of a value token finds: the value, looser at its end or in its
      surroundings. */
  ghost predicate IsFound(k: Kind, s: Text, i: nat, j: nat) {
    match k
    case Uuid => IsUuid(s, i, j)
    case Timestamp => IsInstant(s, i, true) && i + 19 <= j && NoSpace(s, i + 19, j)
    case Email => IsLooseEmail(s, i, j)
    case Ip => OctetsFrom(s, i, j, 3)
    case Hex => Hexes(s, i, j) && j - i >= 16
    case Id => Digits(s, i, j) && j - i >= 6
  }

  lemma LooseEmailIs(s: Text, i: nat, j: nat, r: Regex, name: Regex, host: Regex)
    requires i <= j <= |s| && r == Cat(name, Cat(Char(One(64)), host))
    requires name == Repeat(Char(LocalPart), 1, Unbounded, true) && host == Repeat(Char(Domain), 1, Unbounded, true)
    ensures Matches(r, s, i, j, true) <==> IsLooseEmail(s, i, j)
  {
    forall at: nat | Between(i, at, j)
      ensures Matches(name, s, i, at, true) && Matches(r.second, s, at, j, true) <==> IsLooseEmailWith(s, i, at, j)
    {
      RunIs(LocalPart, 1, Unbounded, s, i, at, true);
      CharThen(One(64), host, s, at, j, true);
      if at < j {
        RunIs(Domain, 1, Unbounded, s, at + 1, j, true);
      }
    }
    SplitIs(r, name, r.second, s, i, j, true);
  }

  lemma NonSpacesAre(s: Text, i: nat, j: nat, rest: Regex)
    requires i <= j <= |s| && rest == NON_SPACES
    ensures Matches(rest, s, i, j, true) <==> NoSpace(s, i, j)
  {
    RunIs(NotSpace, 0, Unbounded, s, i, j, true);
  }

  lemma LooseInstantIs(s: Text, i: nat, j: nat, fields: seq<(nat, Unit)>, instant: Regex, last: Regex, rest: Regex)
    requires fields == [(4, 45), (2, 45), (2, 84), (2, 58), (2, 58)] && Width(fields) == 17
    requires i <= j <= |s| && last == Cat(Times(Digit, 2), rest) && instant == FieldsThen(Digit, fields, last)
    requires forall x: nat :: x <= j ==> (Matches(rest, s, x, j, true) <==> NoSpace(s, x, j))
    ensures Matches(instant, s, i, j, true)
            <==> FieldsAt(false, fields, s, i, true) && Digits(s, i + 17, i + 19) && i + 19 <= j
                 && NoSpace(s, i + 19, j)
  {
    FieldsAndRest(s, i, j, fields, instant, last, rest, true);
  }

  ghost predicate MeansOctets(r: Regex, n: nat, s: Text) {
    forall i: nat, j: nat :: i <= j <= |s| ==> Matches(r, s, i, j, true) == OctetsFrom(s, i, j, n)
  }

  /** One octet more. */
  lemma OctetThen(r: Regex, rest: Regex, octet: Regex, n: nat, s: Text)
    requires octet == OCTET && r == Cat(octet, Point(rest)) && MeansOctets(rest, n, s)
    ensures MeansOctets(r, n + 1, s)
  {
    forall i: nat, j: nat | i <= j <= |s| ensures Matches(r, s, i, j, true) == OctetsFrom(s, i, j, n + 1) {
      forall e: nat | Between(i, e, j)
        ensures Matches(octet, s, i, e, true) <==> IsOctet(s, i, e)
        ensures Matches(Point(rest), s, e, j, true) <==> AreOctets(s, e, j, n + 1)
      {
        RunIs(Digit, 1, AtMost(3), s, i, e, true);
        CharThen(One(46), rest, s, e, j, true);
        PointIs(s, e, j, n);
      }
      SplitIs(r, octet, Point(rest), s, i, j, true);
    }
  }

  lemma PointIs(s: Text, i: nat, j: nat, n: nat)
    requires i <= j <= |s|
    ensures AreOctets(s, i, j, n + 1) <==> i < j && Is(s, i, 46) && OctetsFrom(s, i + 1, j, n)
  {
    if AreOctets(s, i, j, n + 1) {
      var e: nat :| Between(i, e, j) && Is(s, i, 46) && IsOctet(s, i + 1, e) && AreOctets(s, e, j, n);
      assert Between(i + 1, e, j);
    }
    if i < j && Is(s, i, 46) && OctetsFrom(s, i + 1, j, n) {
      var e: nat :| Between(i + 1, e, j) && IsOctet(s, i + 1, e) && AreOctets(s, e, j, n);
      assert Between(i, e, j);
    }
  }

  lemma FlatIs(r: Regex, s: Text)
    requires r == FLAT_DOTTED
    ensures MeansOctets(r, 3, s)
  {
    var octet := r.first;
    forall i: nat, j: nat | i <= j <= |s| ensures Matches(octet, s, i, j, true) == OctetsFrom(s, i, j, 0) {
      RunIs(Digit, 1, AtMost(3), s, i, j, true);
      assert Between(i, j, j);
    }
    var r2 := Cat(octet, Point(octet));
    var r3 := Cat(octet, Point(r2));
    OctetThen(r2, octet, octet, 0, s);
    OctetThen(r3, r2, octet, 1, s);
    OctetThen(r, r3, octet, 2, s);
  }

  /** What the expression of a value token finds. */
  lemma FinderIs(k: Kind, s: Text, i: nat, j: nat)
    requires i <= j <= |s|
    ensures Matches(Finder(k), s, i, j, true) <==> IsFound(k, s, i, j)
  {
    match k
    case Uuid => UuidIs(s, i, j);
    case Timestamp =>
      var fields: seq<(nat, Unit)> := [(4, 45), (2, 45), (2, 84), (2, 58), (2, 58)];
      InstantHasFields(fields, NON_SPACES);
      forall x: nat | x <= j ensures Matches(NON_SPACES, s, x, j, true) <==> NoSpace(s, x, j) {
        NonSpacesAre(s, x, j, NON_SPACES);
      }
      LooseInstantIs(s, i, j, fields, Finder(k), Cat(Times(Digit, 2), NON_SPACES), NON_SPACES);
    case Email => LooseEmailIs(s, i, j, Finder(k), Finder(k).first, Finder(k).second.second);
    case Ip => FlatIs(Finder(k), s);
    case Hex => RunIs(HexDigit, 16, Unbounded, s, i, j, true);
    case Id => RunIs(Digit, 6, Unbounded, s, i, j, true);
  }
}
