/**
  Messages that hold the text of a value token. Only `.*?` and the tail of a
  timestamp can consume a `<`; without them the template of such a message has too
  few of them left to match the whole message.
*/
module Converse {
  import opened Base
  import opened Regex
  import opened RegexFacts
  import opened Preprocess
  import opened Drilldown
  import opened Alignment
  import opened Soundness

  ghost predicate Holds(m: Text, token: Text) { exists i: nat :: StartsWith(m, i, token) }

  // ----------------------------------------------------------------- counting angles

  /** How often `<` occurs. */
  function Angles(s: Text): nat { if s == [] then 0 else (if s[0] == LESS then 1 else 0) + Angles(s[1..]) }

  lemma {:induction false} AnglesAppend(a: Text, b: Text)
    ensures Angles(a + b) == Angles(a) + Angles(b)
  {
    if a == [] {
      assert a + b == b;
    } else {
      AnglesAppend(a[1..], b);
      assert (a + b)[1..] == a[1..] + b;
    }
  }

  lemma AnglesSplit(s: Text, i: nat, e: nat, j: nat)
    requires i <= e <= j <= |s|
    ensures Angles(s[i..j]) == Angles(s[i..e]) + Angles(s[e..j])
  {
    AnglesAppend(s[i..e], s[e..j]);
    assert s[i..e] + s[e..j] == s[i..j];
  }

  lemma {:induction false} NoneIsZero(s: Text)
    requires forall k :: 0 <= k < |s| ==> NotAngle(s[k])
    ensures Angles(s) == 0
  {
    if s != [] {
      NoneIsZero(s[1..]);
    }
  }

  /** The parts other than literals consume no angle. */
  ghost predicate Narrow(parts: seq<Part>) {
    parts == [] || ((parts[0].Hole? ==> Over(parts[0].regex, NotAngle, true)) && Narrow(parts[1..]))
  }

  /** The text of a literal part. */
  function Read(p: Part): Text {
    match p
    case Literal(source) => (match ReadLiteral(source) case Some(t) => t case None => [])
    case Hole(_) => []
  }

  /** How often `<` occurs in the literal parts. */
  function LiteralAngles(parts: seq<Part>): nat {
    if parts == [] then 0 else Angles(Read(parts[0])) + LiteralAngles(parts[1..])
  }

  lemma {:induction false} VerbatimTakes(t: Text, s: Text, i: nat, j: nat)
    requires i <= j <= |s| && Matches(Verbatim(t), s, i, j, true)
    ensures Angles(s[i..j]) == Angles(t)
  {
    if t == [] {
      assert s[i..j] == [];
    } else {
      var e := Meeting(Char(One(t[0])), Verbatim(t[1..]), s, i, j);
      VerbatimTakes(t[1..], s, e, j);
      assert s[i..j][1..] == s[e..j];
    }
  }

  lemma PartTakes(p: Part, s: Text, i: nat, j: nat)
    requires i <= j <= |s| && Matches(PartRegex(p), s, i, j, true)
    requires p.Hole? ==> Over(p.regex, NotAngle, true)
    ensures Angles(s[i..j]) == Angles(Read(p))
  {
    if p.Hole? {
      MatchIsOver(p.regex, NotAngle, s, i, j, true);
      NoneIsZero(s[i..j]);
    } else {
      VerbatimTakes(Read(p), s, i, j);
    }
  }

  /** Whatever narrow parts match holds the `<` of their literals and no other. */
  lemma {:induction false} PartsTake(parts: seq<Part>, s: Text, i: nat, j: nat)
    requires i <= j <= |s| && Narrow(parts) && Matches(RegexOf(parts), s, i, j, true)
    ensures Angles(s[i..j]) == LiteralAngles(parts)
  {
    if parts == [] {
      assert s[i..j] == [];
    } else {
      var e := Meeting(PartRegex(parts[0]), RegexOf(parts[1..]), s, i, j);
      PartTakes(parts[0], s, i, e);
      PartsTake(parts[1..], s, e, j);
      AnglesSplit(s, i, e, j);
    }
  }

  /** Where one part of a match ends and the next begins. */
  lemma Meeting(a: Regex, b: Regex, s: Text, i: nat, j: nat) returns (e: nat)
    requires i <= j <= |s| && Matches(Cat(a, b), s, i, j, true)
    ensures i <= e <= j && Matches(a, s, i, e, true) && Matches(b, s, e, j, true)
  {
    e :| Between(i, e, j) && Matches(a, s, i, e, true) && Matches(b, s, e, j, true);
  }

  lemma WholeTakes(parts: seq<Part>, m: Text)
    requires Narrow(parts) && |m| in Ends(RegexOf(parts), m, 0, true)
    ensures Angles(m) == LiteralAngles(parts)
  {
    EndsAreMatches(RegexOf(parts), m, 0, |m|, true);
    PartsTake(parts, m, 0, |m|);
    assert m[0..|m|] == m;
  }

  // ------------------------------------------------------------- counting along a scan

  lemma {:induction false} PushPart(p: Part, rest: seq<Part>)
    ensures LiteralAngles([p] + rest) == Angles(Read(p)) + LiteralAngles(rest)
    ensures Narrow([p] + rest) <==> (p.Hole? ==> Over(p.regex, NotAngle, true)) && Narrow(rest)
  {
    assert ([p] + rest)[1..] == rest;
  }

  lemma PushRun(run: Text, rest: seq<Part>)
    ensures LiteralAngles(Run(run) + rest) == Angles(run) + LiteralAngles(rest)
    ensures Narrow(Run(run) + rest) <==> Narrow(rest)
  {
    if run == [] {
      assert Run(run) + rest == rest;
    } else {
      EscapeReadsBack(run);
      PushPart(Literal(EscapeRegExp(run)), rest);
    }
  }

  /** No wildcard in the message. */
  ghost predicate NoWild(table: seq<Entry>, m: Text) {
    forall t, i: nat :: Lookup(table, t).Some? && Lookup(table, t).value.wild ==> !StartsWith(m, i, t)
  }

  /** The finders of the value tokens in a template consume no angle. */
  ghost predicate NarrowTokens(table: seq<Entry>, template: Text) {
    forall t, i: nat :: Lookup(table, t).Some? && !Lookup(table, t).value.wild && StartsWith(template, i, t)
      ==> Over(Lookup(table, t).value.regex, NotAngle, true)
  }

  lemma SuffixIsAlike(table: seq<Entry>, a: Text, b: Text, c: Text, d: Text)
    requires NoWild(table, a + b) && NarrowTokens(table, c + d)
    ensures NoWild(table, b) && NarrowTokens(table, d)
  {
    forall t, i: nat | Lookup(table, t).Some? && Lookup(table, t).value.wild ensures !StartsWith(b, i, t) {
      if StartsWith(b, i, t) { StartsBehind(a, b, i, t); }
    }
    forall t, i: nat | Lookup(table, t).Some? && !Lookup(table, t).value.wild && StartsWith(d, i, t)
      ensures Over(Lookup(table, t).value.regex, NotAngle, true)
    {
      StartsBehind(c, d, i, t);
    }
  }

  /** A token of the message that begins within `ps` and not with its first piece. */
  lemma TokenBehind(head: Text, tail: Text, i: nat, token: Text)
    requires StartsWith(head + tail, i, token) && i >= |head|
    ensures StartsWith(tail, i - |head|, token)
  {
    assert (head + tail)[i..i + |token|] == tail[i - |head|..i - |head| + |token|];
  }

  /** The rest of a token has no room for a span. */
  lemma NoRoom(p: Piece, tail: Text, rest: Text)
    requires Finds(p) && StartsWith(Original(p) + tail, 0, rest)
    requires 0 < |rest| <= 6 && rest[|rest| - 1] == GREATER
    ensures p.Kept? && p.c == rest[0] && StartsWith(tail, 0, rest[1..])
  {
    var k, m := |rest| - 1, Original(p) + tail;
    assert m[0..|rest|][k] == m[k] && m[0..|rest|][0] == m[0];
    assert k < |Original(p)| ==> m[k] == Original(p)[k];
    assert p.Kept? ==> tail[0..k] == m[0..|rest|][1..];
  }

  /** The characters of a token behind one that was kept were kept. */
  lemma {:induction false} RestIsKept(ps: seq<Piece>, rest: Text)
    requires AllFind(ps) && StartsWith(Source(ps), 0, rest)
    requires |rest| <= 6 && (rest != [] ==> rest[|rest| - 1] == GREATER)
    ensures StartsWith(Render(ps), 0, rest)
    decreases |rest|
  {
    if rest == [] {
      assert Render(ps)[0..0] == [];
    } else {
      assert Finds(ps[0]);
      NoRoom(ps[0], Source(ps[1..]), rest);
      RestIsKept(ps[1..], rest[1..]);
      PrependStart(ps[0].c, Render(ps[1..]), rest);
    }
  }

  lemma PrependStart(c: Unit, text: Text, rest: Text)
    requires rest != [] && rest[0] == c && StartsWith(text, 0, rest[1..])
    ensures StartsWith([c] + text, 0, rest)
  {
    TokenOff(text, rest[1..]);
    assert rest == [c] + rest[1..];
    assert ([c] + text)[0..|rest|] == [c] + text[0..|rest| - 1];
  }

  lemma TokenIsKept(ps: seq<Piece>, token: Text)
    requires AllFind(ps) && IsToken(token) && StartsWith(Source(ps), 0, token)
    requires ps != [] && ps[0].Kept?
    ensures StartsWith(Render(ps), 0, token)
  {
    var m, tail := Source(ps), Source(ps[1..]);
    assert m == [ps[0].c] + tail;
    TokenOff(m, token);
    assert tail[0..|token| - 1] == m[0..|token|][1..];
    RestIsKept(ps[1..], token[1..]);
    PrependStart(ps[0].c, Render(ps[1..]), token);
  }

  /** A value token in a message. */
  ghost predicate HoldsValue(table: seq<Entry>, m: Text) { !HoldsNoValue(table, m) }

  /** A value token either begins the message or lies behind its first piece. */
  lemma ValueBehind(table: seq<Entry>, ps: seq<Piece>)
    requires HasTokens(table) && AllFind(ps) && ps != [] && HoldsValue(table, Source(ps))
    requires EntryAt(table, Render(ps), 0).None? || ps[0].Stripped?
    ensures HoldsValue(table, Source(ps[1..]))
  {
    var t, i: nat :| Lookup(table, t).Some? && !Lookup(table, t).value.wild && StartsWith(Source(ps), i, t);
    var head, tail := Original(ps[0]), Source(ps[1..]);
    assert Finds(ps[0]);
    assert Source(ps)[i] == Source(ps)[i..i + |t|][0] == LESS;
    if i < |head| {
      assert head[i] == LESS;
      TokenIsKept(ps, t);
    }
    TokenBehind(head, tail, i, t);
  }

  /** What the compiled parts have of `<`, against what the message has. */
  ghost predicate FewAngles(parts: seq<Part>, run: Text, m: Text, lost: bool) {
    Narrow(parts) && LiteralAngles(parts) + (if lost then 1 else 0) <= Angles(run) + Angles(m)
  }

  lemma {:induction false} ScanLoses(table: seq<Entry>, ps: seq<Piece>, run: Text, wild: nat)
    requires WellFormed(table) && Sound(table, ps)
    requires NoWild(table, Source(ps)) && NarrowTokens(table, Render(ps))
    ensures FewAngles(Scan(table, Render(ps), run, wild), run, Source(ps), HoldsValue(table, Source(ps)))
    decreases |ps|
  {
    var t := Render(ps);
    if ps == [] {
      NothingToLose(table, run, wild);
    } else if ps[0].Stripped? {
      LoseStripped(table, ps, run, wild);
    } else if EntryAt(table, t, 0).Some? {
      LoseToken(table, ps, run, wild, EntryAt(table, t, 0).value);
    } else {
      LoseNothing(table, ps, run, wild);
    }
  }

  lemma NothingToLose(table: seq<Entry>, run: Text, wild: nat)
    requires HasTokens(table)
    ensures FewAngles(Scan(table, [], run, wild), run, [], HoldsValue(table, []))
  {
    assert EntryAt(table, [], 0) == None by {
      if EntryAt(table, [], 0).Some? {
        TokenOff([], EntryAt(table, [], 0).value.token);
      }
    }
    forall t, i: nat | Lookup(table, t).Some? && !Lookup(table, t).value.wild ensures !StartsWith([], i, t) {
      assert IsToken(t);
    }
    PushRun(run, []);
    assert Run(run) + [] == Run(run);
  }

  lemma {:induction false} LoseStripped(table: seq<Entry>, ps: seq<Piece>, run: Text, wild: nat)
    requires WellFormed(table) && Sound(table, ps) && ps != [] && ps[0].Stripped?
    requires NoWild(table, Source(ps)) && NarrowTokens(table, Render(ps))
    ensures FewAngles(Scan(table, Render(ps), run, wild), run, Source(ps), HoldsValue(table, Source(ps)))
    decreases |ps|, 0
  {
    var p, tail := ps[0], ps[1..];
    var e := Entry(p.token, p.finder, false);
    StrippedIsNext(table, p, Render(tail));
    SuffixIsAlike(table, p.span, Source(tail), p.token, Render(tail));
    ScanLoses(table, tail, [], wild);
    var rest := Scan(table, Render(tail), [], wild);
    assert StartsWith(Render(ps), 0, p.token);
    PushPart(Hole(p.finder), rest);
    PushRun(run, [Hole(p.finder)] + rest);
    AnglesAppend(p.span, Source(tail));
    SoundFinds(table, ps);
    if HoldsValue(table, Source(ps)) {
      ValueBehind(table, ps);
    }
  }

  lemma {:induction false} LoseToken(table: seq<Entry>, ps: seq<Piece>, run: Text, wild: nat, e: Entry)
    requires WellFormed(table) && Sound(table, ps) && ps != [] && ps[0].Kept?
    requires EntryAt(table, Render(ps), 0) == Some(e)
    requires NoWild(table, Source(ps)) && NarrowTokens(table, Render(ps))
    ensures FewAngles(Scan(table, Render(ps), run, wild), run, Source(ps), HoldsValue(table, Source(ps)))
    decreases |ps|, 0
  {
    KeptTokenOff(table, ps, e.token);
    TokenOff(Render(ps), e.token);
    var tail := ps[|e.token|..];
    assert StartsWith(Source(ps), 0, e.token) && !e.wild;
    SuffixIsAlike(table, e.token, Source(tail), e.token, Render(tail));
    ScanLoses(table, tail, [], wild);
    var rest := Scan(table, Render(tail), [], wild);
    PushPart(Hole(e.regex), rest);
    PushRun(run, [Hole(e.regex)] + rest);
    AnglesAppend(e.token, Source(tail));
  }

  lemma {:induction false} LoseNothing(table: seq<Entry>, ps: seq<Piece>, run: Text, wild: nat)
    requires WellFormed(table) && Sound(table, ps) && ps != [] && ps[0].Kept?
    requires EntryAt(table, Render(ps), 0).None?
    requires NoWild(table, Source(ps)) && NarrowTokens(table, Render(ps))
    ensures FewAngles(Scan(table, Render(ps), run, wild), run, Source(ps), HoldsValue(table, Source(ps)))
    decreases |ps|, 0
  {
    var c, tail := ps[0].c, ps[1..];
    assert Render(ps)[1..] == Render(tail);
    SuffixIsAlike(table, [c], Source(tail), [c], Render(tail));
    ScanLoses(table, tail, run + [c], wild);
    AnglesAppend(run, [c]);
    AnglesAppend([c], Source(tail));
    SoundFinds(table, ps);
    if HoldsValue(table, Source(ps)) {
      ValueBehind(table, ps);
    }
  }

  lemma {:induction false} SoundFinds(table: seq<Entry>, ps: seq<Piece>)
    requires Sound(table, ps)
    ensures AllFind(ps)
  {
    if ps != [] {
      SoundFinds(table, ps[1..]);
      forall i | 0 <= i < |ps| ensures Finds(ps[i]) {
        assert i > 0 ==> ps[i] == ps[1..][i - 1];
      }
    }
  }

  // ---------------------------------------------------------------- the placeholder map

  lemma FlatDottedIsNarrow()
    ensures Over(FLAT_DOTTED, NotAngle, true)
  {
    assert Over(OCTET, NotAngle, true);
    assert Over(Point(OCTET), NotAngle, true);
    assert Over(Point(Cat(OCTET, Point(OCTET))), NotAngle, true);
    assert Over(Point(Cat(OCTET, Point(Cat(OCTET, Point(OCTET))))), NotAngle, true);
  }

  /** Only the wildcard and the timestamp can consume an angle. */
  lemma FinderIsNarrow(k: Kind, r: Regex)
    requires k != Timestamp && r == Finder(k)
    ensures Over(r, NotAngle, true)
  {
    match k
    case Uuid => PlainUuid(true);
    case Ip => FlatDottedIsNarrow();
    case Email =>
      assert Over(Repeat(Char(LocalPart), 1, Unbounded, true), NotAngle, true);
      assert Over(Repeat(Char(Domain), 1, Unbounded, true), NotAngle, true);
    case Hex =>
    case Id =>
  }

  lemma MapIsNarrow(m: Text, template: Text, table: seq<Entry>)
    requires table == PlaceholderMap() && !Holds(m, WILD_TOKEN) && !Holds(template, Token(Timestamp))
    ensures NoWild(table, m) && NarrowTokens(table, template)
  {
    forall t, i: nat | Lookup(table, t).Some? && Lookup(table, t).value.wild ensures !StartsWith(m, i, t) {
      LookupIsRow(table, t);
      assert t == WILD_TOKEN;
    }
    forall t, i: nat | Lookup(table, t).Some? && !Lookup(table, t).value.wild && StartsWith(template, i, t)
      ensures Over(Lookup(table, t).value.regex, NotAngle, true)
    {
      LookupIsRow(table, t);
      var k :| Lookup(table, t).value == ValueEntry(k);
      FinderIsNarrow(k, Finder(k));
    }
  }

  lemma TokenIsValue(m: Text, table: seq<Entry>)
    requires !HoldsNoToken(m) && table == PlaceholderMap()
    ensures HoldsValue(table, m)
  {
    var k: Kind, i: nat :| StartsWith(m, i, Token(k));
    MapHolds(k);
    assert Lookup(table, Token(k)).Some? && !Lookup(table, Token(k)).value.wild;
  }

  lemma TokenIsLost(m: Text, table: seq<Entry>, template: Text, parts: seq<Part>)
    requires table == PlaceholderMap() && template == Preprocessed(m) && !HoldsNoToken(m)
    requires !Holds(m, WILD_TOKEN) && !Holds(template, Token(Timestamp))
    requires HasTokens(table) && parts == Scan(table, template, [], 0)
    ensures template != [] && |m| !in Ends(RegexOf(parts), m, 0, true)
  {
    forall k ensures Lookup(table, Token(k)) == Some(ValueEntry(k)) {
      MapHolds(k);
    }
    MapIsWellFormed(table);
    MapIsNarrow(m, template, table);
    TokenIsValue(m, table);
    var ps := PassesAreAligned(table, m, |KINDS|);
    AlignedIsSound(table, ps);
    ScanLoses(table, ps, [], 0);
    if |m| in Ends(RegexOf(parts), m, 0, true) {
      WholeTakes(parts, m);
    }
    NothingHeld();
    if template == [] {
      SourceOfNothing(ps);
    }
  }

  lemma NothingHeld()
    ensures HoldsNoToken([])
  {
    forall k: Kind, i: nat ensures !StartsWith([], i, Token(k)) {
      TokenIsToken(k);
    }
  }

  /** Drill-down is exact for messages without `<*>` whose template names no
      timestamp: the template of a message matches all of it if and only if the
      message holds no value token. */
  lemma FindsAllIffNoToken(m: Text)
    requires |Preprocessed(m)| <= MAX_TEMPLATE_LENGTH
    requires !Holds(m, WILD_TOKEN) && !Holds(Preprocessed(m), Token(Timestamp))
    ensures MatchesAllOf(Compile(Preprocessed(m)), m) <==> HoldsNoToken(m)
  {
    if HoldsNoToken(m) {
      DrilldownFindsMessage(m);
    } else {
      MapHasTokens();
      var template := Preprocessed(m);
      TokenIsLost(m, PlaceholderMap(), template, Scan(PlaceholderMap(), template, [], 0));
    }
  }

  // ------------------------------------------------------------ a token that is hidden

  ghost predicate Digits(d: Text) { forall k :: 0 <= k < |d| ==> IsDigit(d[k]) }

  /** A wildcard, a value token, and a number too short for a hex run. */
  function HidingMessage(d: Text): Text { WILD_TOKEN + Token(Id) + d }

  /** A match of a pattern in it lies in the number. */
  lemma MatchInNumber(k: Kind, r: Regex, d: Text, m: Text, i: nat, j: nat)
    requires r == Pattern(k) && Digits(d) && m == HidingMessage(d)
    requires i <= j <= |m| && Matches(r, m, i, j, IgnoresCase(k))
    ensures 7 <= i && i + MinLength(r) <= j && |m| == 7 + |d|
    ensures forall x :: i <= x < j ==> IsDigit(m[x])
  {
    PatternShape(k, r);
    MatchLength(r, m, i, j, IgnoresCase(k));
    MatchIsOver(r, NotAngle, m, i, j, IgnoresCase(k));
    NumberIsBehind(d, m);
  }

  lemma NumberIsBehind(d: Text, m: Text)
    requires Digits(d) && m == HidingMessage(d)
    ensures |m| == 7 + |d| && !NotAngle(m[0]) && !NotAngle(m[2]) && !NotAngle(m[3]) && !NotAngle(m[6])
    ensures forall x :: 7 <= x < |m| ==> IsDigit(m[x])
  {
    forall x | 7 <= x < |m| ensures IsDigit(m[x]) {
      assert m[x] == d[x - 7];
    }
  }

  /** None of the first five patterns matches a number that short. */
  lemma NumberIsFree(k: Kind, r: Regex, d: Text, m: Text)
    requires k != Id && r == Pattern(k) && Digits(d) && |d| < 16 && m == HidingMessage(d)
    ensures Free(r, m, IgnoresCase(k))
  {
    forall i: nat, j: nat | i <= j <= |m| ensures !Matches(r, m, i, j, IgnoresCase(k)) {
      if Matches(r, m, i, j, IgnoresCase(k)) {
        MatchInNumber(k, r, d, m, i, j);
        NeedsMore(k, r, m, i, j);
      }
    }
  }

  lemma NeedsMore(k: Kind, r: Regex, s: Text, i: nat, j: nat)
    requires k != Id && r == Pattern(k) && i <= j <= |s| && Matches(r, s, i, j, IgnoresCase(k))
    ensures j - i >= 16 || exists x :: i <= x < j && !IsDigit(s[x])
  {
    MatchLength(r, s, i, j, IgnoresCase(k));
    match k
    case Uuid => PlainUuid(true);
    case Timestamp =>
      PlainZone(false);
      PlainInstant(ZONE, 0, false);
    case Email => EmailHasAt(s, i, j);
    case Ip => DottedHasPoint(s, i, j);
    case Hex => HexIsLong(s, i, j);
  }

  lemma HexIsLong(s: Text, i: nat, j: nat)
    requires i <= j <= |s| && Matches(Bounded(HEX_RUN), s, i, j, true)
    ensures j - i >= 16
  {
    BodyOfBounded(HEX_RUN, s, i, j, true);
    MatchLength(HEX_RUN, s, i, j, true);
  }

  lemma EmailHasAt(s: Text, i: nat, j: nat)
    requires i <= j <= |s| && Matches(EMAIL, s, i, j, true)
    ensures exists x :: i <= x < j && !IsDigit(s[x])
  {
    var e := Meeting(Repeat(Char(LocalPart), 1, AtMost(64), true), Cat(Char(One(64)), HOST), s, i, j);
    var f := Meeting(Char(One(64)), HOST, s, e, j);
    assert In(One(64), s[e], true);
  }

  lemma DottedHasPoint(s: Text, i: nat, j: nat)
    requires i <= j <= |s| && Matches(Bounded(DOTTED), s, i, j, false)
    ensures exists x :: i <= x < j && !IsDigit(s[x])
  {
    BodyOfBounded(DOTTED, s, i, j, false);
    var d: nat :| Between(i, d, j) && Matches(OCTET, s, i, d, false)
                  && Matches(Repeat(Point(OCTET), 3, AtMost(3), true), s, d, j, false);
    var e, f := ThreePoints(s, d, j, false);
    var g: nat :| Between(d, g, e) && Matches(Char(One(46)), s, d, g, false) && Matches(OCTET, s, g, e, false);
    assert In(One(46), s[d], false);
  }

  lemma {:induction false} EarlierPasses(d: Text, m: Text, n: nat)
    requires Digits(d) && |d| < 16 && m == HidingMessage(d) && n <= |KINDS| - 1
    ensures Passes(m, n) == m
  {
    if n > 0 {
      EarlierPasses(d, m, n - 1);
      var k := KINDS[n - 1];
      PatternShape(k, Pattern(k));
      NumberIsFree(k, Pattern(k), d, m);
      FreeIsUnchanged(Pattern(k), Token(k), m, IgnoresCase(k));
    }
  }

  /** The id pattern matches the number, as a whole only. */
  lemma NumberIsId(d: Text, m: Text, i: nat, j: nat)
    requires Digits(d) && |d| >= 6 && m == HidingMessage(d) && i <= j <= |m|
    ensures Matches(Pattern(Id), m, i, j, false) <==> i == 7 && j == |m|
  {
    NumberIsBehind(d, m);
    assert m[6] == GREATER;
    if Matches(Pattern(Id), m, i, j, false) {
      MatchInNumber(Id, Pattern(Id), d, m, i, j);
      var e := MeetingAt(Edge, Cat(ID_RUN, Edge), m, i, j);
      var f := MeetingAt(ID_RUN, Edge, m, e, j);
      assert IsEdge(m, i) && IsEdge(m, j);
    }
    if i == 7 && j == |m| {
      ClassRun(Digit, 6, Unbounded, m, i, j, false);
      assert IsEdge(m, i) && IsEdge(m, j);
      assert Between(i, j, j) && Matches(Cat(ID_RUN, Edge), m, i, j, false);
      assert Between(i, i, j);
    }
  }

  lemma MeetingAt(a: Regex, b: Regex, s: Text, i: nat, j: nat) returns (e: nat)
    requires i <= j <= |s| && Matches(Cat(a, b), s, i, j, false)
    ensures i <= e <= j && Matches(a, s, i, e, false) && Matches(b, s, e, j, false)
  {
    e :| Between(i, e, j) && Matches(a, s, i, e, false) && Matches(b, s, e, j, false);
  }

  /** The last pass puts a token in for the number. */
  lemma NumberIsReplaced(d: Text, m: Text, r: Regex)
    requires Digits(d) && |d| >= 6 && m == HidingMessage(d) && r == Pattern(Id)
    ensures MinLength(r) > 0
    ensures ReplaceFrom(r, Token(Id), m, 0, false) == WILD_TOKEN + Token(Id) + Token(Id)
  {
    PatternShape(Id, r);
    var n := |m|;
    NumberIsId(d, m, 7, n);
    EndsAreMatches(r, m, 7, n, false);
    var p := Search(r, m, 0, false).value;
    EndAdvances(r, m, p, false);
    NumberIsId(d, m, p, Ends(r, m, p, false)[0]);
    assert m[..7] == WILD_TOKEN + Token(Id);
    if Search(r, m, n, false).Some? {
      EndAdvances(r, m, n, false);
    }
  }

  lemma HidingTemplate(d: Text, m: Text)
    requires Digits(d) && 6 <= |d| < 16 && m == HidingMessage(d)
    ensures Preprocessed(m) == WILD_TOKEN + Token(Id) + Token(Id)
  {
    EarlierPasses(d, m, |KINDS| - 1);
    NumberIsReplaced(d, m, Pattern(Id));
    assert Passes(m, |KINDS|) == Pass(Id, Passes(m, |KINDS| - 1));
  }

  /** A token at the front of a template is its first part. */
  lemma ScanFirst(table: seq<Entry>, e: Entry, rest: Text, wild: nat)
    requires WellFormed(table) && Lookup(table, e.token) == Some(e)
    ensures Scan(table, e.token + rest, [], wild) == [EntryPart(e, wild)] + Scan(table, rest, [], Spent(e, wild))
  {
    var t := e.token + rest;
    assert t[0..|e.token|] == e.token && StartsWith(t, 0, e.token);
    var f := EntryAt(table, t, 0).value;
    TokenOff(t, f.token);
    TokensAgree(f.token, t[|f.token|..], e.token, rest);
    assert Run([]) + ([EntryPart(e, wild)] + Scan(table, rest, [], Spent(e, wild)))
        == [EntryPart(e, wild)] + Scan(table, rest, [], Spent(e, wild));
  }

  lemma ScanThree(table: seq<Entry>, w: Entry, e: Entry)
    requires WellFormed(table) && w.wild && !e.wild
    requires Lookup(table, w.token) == Some(w) && Lookup(table, e.token) == Some(e)
    ensures Scan(table, w.token + (e.token + e.token), [], 0) == [Hole(w.regex)] + ([Hole(e.regex)] + [Hole(e.regex)])
  {
    ScanFirst(table, w, e.token + e.token, 0);
    ScanFirst(table, e, e.token, 1);
    ScanOneToken(table, e, 1);
  }

  lemma {:induction false} LookupOfLast(table: seq<Entry>, e: Entry)
    requires table != [] && table[|table| - 1] == e
    requires forall i :: 0 <= i < |table| - 1 ==> table[i].token != e.token
    ensures Lookup(table, e.token) == Some(e)
  {
    if |table| > 1 {
      LookupOfLast(table[1..], e);
    }
  }

  lemma WildInMap()
    ensures Lookup(PlaceholderMap(), WILD_TOKEN) == Some(WILD_ENTRY)
  {
    forall k: Kind ensures Token(k) != WILD_TOKEN {
      assert Token(k)[1] != WILD_TOKEN[1];
    }
    LookupOfLast(PlaceholderMap(), WILD_ENTRY);
  }

  lemma DigitsAreId(d: Text)
    requires Digits(d) && |d| >= 6
    ensures Whole(PartRegex(Hole(ID_RUN)), d)
  {
    ClassRun(Digit, 6, Unbounded, d, 0, |d|, true);
    EndsAreMatches(ID_RUN, d, 0, |d|, true);
  }

  lemma WholeThree(p: Part, s: Text, q: Part, t: Text, u: Text)
    requires Whole(PartRegex(p), s) && Whole(PartRegex(q), t) && Whole(PartRegex(q), u)
    ensures Whole(RegexOf([p] + ([q] + [q])), s + (t + u))
  {
    WholePart(q, u, [], []);
    assert [q] + [] == [q] && u + [] == u;
    WholePart(q, t, [q], u);
    WholePart(p, s, [q] + [q], t + u);
  }

  lemma HidingMatches(d: Text, m: Text, front: Text)
    requires Digits(d) && |d| >= 12 && front == WILD_TOKEN + Token(Id) && m == front + d
    ensures |m| in Ends(RegexOf([Hole(ANYTHING)] + ([Hole(ID_RUN)] + [Hole(ID_RUN)])), m, 0, true)
  {
    ClassRun(Dot, 0, Unbounded, front, 0, |front|, true);
    EndsAreMatches(ANYTHING, front, 0, |front|, true);
    DigitsAreId(d[..6]);
    DigitsAreId(d[6..]);
    WholeThree(Hole(ANYTHING), front, Hole(ID_RUN), d[..6], d[6..]);
    assert d[..6] + d[6..] == d;
  }

  lemma CompileShort(template: Text, table: seq<Entry>, parts: seq<Part>)
    requires 0 < |template| <= MAX_TEMPLATE_LENGTH && table == PlaceholderMap()
    requires HasTokens(table) && Scan(table, template, [], 0) == parts
    ensures Compile(template) == Joined(parts)
  {
  }

  lemma HidingParts(template: Text, table: seq<Entry>, w: Entry, e: Entry)
    requires table == PlaceholderMap() && w == WILD_ENTRY && e == ValueEntry(Id)
    requires template == w.token + (e.token + e.token) && 0 < |template| <= MAX_TEMPLATE_LENGTH
    ensures Compile(template) == Joined([Hole(w.regex)] + ([Hole(e.regex)] + [Hole(e.regex)]))
  {
    MapIsWellFormed(table);
    MapHolds(Id);
    WildInMap();
    ScanThree(table, w, e);
    CompileShort(template, table, [Hole(w.regex)] + ([Hole(e.regex)] + [Hole(e.regex)]));
  }

  /** With a wildcard the equivalence fails: `<*><ID>` and a number of twelve to
      fifteen digits holds a value token, and its template matches all of it. */
  lemma WildcardHidesToken(d: Text)
    requires Digits(d) && 12 <= |d| < 16
    ensures !HoldsNoToken(HidingMessage(d))
    ensures MatchesAllOf(Compile(Preprocessed(HidingMessage(d))), HidingMessage(d))
  {
    var m := HidingMessage(d);
    assert m[3..3 + |Token(Id)|] == Token(Id);
    assert StartsWith(m, 3, Token(Id));
    HidingTemplate(d, m);
    assert Preprocessed(m) == WILD_TOKEN + (Token(Id) + Token(Id));
    HidingParts(Preprocessed(m), PlaceholderMap(), WILD_ENTRY, ValueEntry(Id));
    HidingMatches(d, m, WILD_TOKEN + Token(Id));
  }
}
