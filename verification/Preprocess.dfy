/**
  Stripping high-cardinality values from a message before clustering
  (services/api/src/pipeline/preprocess.ts): six global replacements in a fixed
  order, each a leftmost scan with the engine's own choice of end.
*/
module Preprocess {
  import opened Base
  import opened Regex
  import opened RegexFacts

  /** The kinds of value that are stripped, in the order of the passes. */
  datatype Kind = Uuid | Timestamp | Email | Ip | Hex | Id

  const KINDS: seq<Kind> := [Uuid, Timestamp, Email, Ip, Hex, Id]

  /** `<UUID>`, `<TS>`, `<EMAIL>`, `<IP>`, `<HEX>` and `<ID>`. */
  function Token(k: Kind): Text {
    match k
    case Uuid => [LESS, 85, 85, 73, 68, GREATER]
    case Timestamp => [LESS, 84, 83, GREATER]
    case Email => [LESS, 69, 77, 65, 73, 76, GREATER]
    case Ip => [LESS, 73, 80, GREATER]
    case Hex => [LESS, 72, 69, 88, GREATER]
    case Id => [LESS, 73, 68, GREATER]
  }

  function Times(k: CharClass, n: nat): Regex { Repeat(Char(k), n, AtMost(n), true) }

  function Maybe(r: Regex): Regex { Repeat(r, 0, AtMost(1), true) }

  function Dash(r: Regex): Regex { Cat(Char(One(45)), r) }

  function Colon(r: Regex): Regex { Cat(Char(One(58)), r) }

  function Point(r: Regex): Regex { Cat(Char(One(46)), r) }

  function Bounded(body: Regex): Regex { Cat(Edge, Cat(body, Edge)) }

  /** [0-9a-f]{8}-[0-9a-f]{4}-[0-9a-f]{4}-[0-9a-f]{4}-[0-9a-f]{12} */
  const UUID: Regex :=
    Cat(Times(HexDigit, 8), Dash(Cat(Times(HexDigit, 4), Dash(Cat(Times(HexDigit, 4),
      Dash(Cat(Times(HexDigit, 4), Dash(Times(HexDigit, 12)))))))))

  /** \d{2}:\d{2}:\d{2} followed by `rest` */
  function Clock(rest: Regex): Regex {
    Cat(Times(Digit, 2), Colon(Cat(Times(Digit, 2), Colon(Cat(Times(Digit, 2), rest)))))
  }

  /** \d{4}-\d{2}-\d{2}T\d{2}:\d{2}:\d{2} followed by `rest` */
  function Instant(rest: Regex): Regex {
    Cat(Times(Digit, 4), Dash(Cat(Times(Digit, 2), Dash(Cat(Times(Digit, 2), Cat(Char(One(84)), Clock(rest)))))))
  }

  /** (?:\.\d+)?(?:Z|[+-]\d{2}:?\d{2})? */
  const ZONE: Regex :=
    Cat(Maybe(Point(Repeat(Char(Digit), 1, Unbounded, true))),
        Maybe(Either(Char(One(90)),
                     Cat(Char(Sign), Cat(Times(Digit, 2), Cat(Maybe(Char(One(58))), Times(Digit, 2)))))))

  /** [a-z0-9.-]{1,255}\.[a-z]{2,24} */
  const HOST: Regex :=
    Cat(Repeat(Char(Domain), 1, AtMost(255), true), Point(Repeat(Char(Letter), 2, AtMost(24), true)))

  /** [a-z0-9._%+-]{1,64}@ followed by the host */
  const EMAIL: Regex := Cat(Repeat(Char(LocalPart), 1, AtMost(64), true), Cat(Char(One(64)), HOST))

  /** \d{1,3} */
  const OCTET: Regex := Repeat(Char(Digit), 1, AtMost(3), true)

  /** \d{1,3}(?:\.\d{1,3}){3} */
  const DOTTED: Regex := Cat(OCTET, Repeat(Point(OCTET), 3, AtMost(3), true))

  const HEX_RUN: Regex := Repeat(Char(HexDigit), 16, Unbounded, true)

  const ID_RUN: Regex := Repeat(Char(Digit), 6, Unbounded, true)

  function Pattern(k: Kind): Regex {
    match k
    case Uuid => UUID
    case Timestamp => Instant(ZONE)
    case Email => EMAIL
    case Ip => Bounded(DOTTED)
    case Hex => Bounded(HEX_RUN)
    case Id => Bounded(ID_RUN)
  }

  /** The `i` flag of the pass. */
  predicate IgnoresCase(k: Kind) { k in [Uuid, Email, Hex] }

  // ------------------------------------------------------------------ replacement

  /** The leftmost position at or after `i` where `r` matches. */
  function Search(r: Regex, s: Text, i: nat, ic: bool): (p: Option<nat>)
    requires i <= |s|
    ensures p.Some? ==> i <= p.value <= |s| && Ends(r, s, p.value, ic) != []
    ensures forall x: nat :: i <= x < (if p.Some? then p.value else |s| + 1) ==> Ends(r, s, x, ic) == []
    decreases |s| - i
  {
    if Ends(r, s, i, ic) != [] then Some(i)
    else if i == |s| then None
    else Search(r, s, i + 1, ic)
  }

  lemma EndAdvances(r: Regex, s: Text, p: nat, ic: bool)
    requires MinLength(r) > 0 && p <= |s| && Ends(r, s, p, ic) != []
    ensures p < Ends(r, s, p, ic)[0] <= |s|
    ensures Matches(r, s, p, Ends(r, s, p, ic)[0], ic)
  {
    var q := Ends(r, s, p, ic)[0];
    assert q in Ends(r, s, p, ic);
    EndsAreMatches(r, s, p, q, ic);
    MatchLength(r, s, p, q, ic);
  }

  /** What `s.replace(/r/g, token)` yields from position `i` on. */
  function ReplaceFrom(r: Regex, token: Text, s: Text, i: nat, ic: bool): Text
    requires MinLength(r) > 0 && i <= |s|
    decreases |s| - i
  {
    match Search(r, s, i, ic)
    case None => s[i..]
    case Some(p) =>
      EndAdvances(r, s, p, ic);
      s[i..p] + token + ReplaceFrom(r, token, s, Ends(r, s, p, ic)[0], ic)
  }

  function Pass(k: Kind, s: Text): Text {
    PatternShape(k, Pattern(k));
    ReplaceFrom(Pattern(k), Token(k), s, 0, IgnoresCase(k))
  }

  /** The first `n` passes. */
  function Passes(s: Text, n: nat): Text
    requires n <= |KINDS|
  {
    if n == 0 then s else Pass(KINDS[n - 1], Passes(s, n - 1))
  }

  function Preprocessed(message: Text): Text { Passes(message, |KINDS|) }

  method PreprocessMessage(message: Text) returns (result: Text)
    ensures result == Preprocessed(message)
  {
    result := message;
    for n := 0 to |KINDS|
      invariant result == Passes(message, n)
    {
      result := Pass(KINDS[n], result);
    }
  }

  // ---------------------------------------------------------------- pattern shape

  predicate NotAngle(c: Unit) { c != LESS && c != GREATER }

  /** A token is bracketed by angles and its name is shorter than any match. */
  predicate IsToken(token: Text) {
    && 2 <= |token| <= 7
    && token[0] == LESS && token[|token| - 1] == GREATER
    && forall k :: 0 < k < |token| - 1 ==> NotAngle(token[k])
  }

  /** Over the characters outside angles, blind to the context, at least `n` long. */
  ghost predicate Plain(r: Regex, n: nat, ic: bool) {
    Over(r, NotAngle, ic) && ContextFree(r) && MinLength(r) == n
  }

  lemma PlainCat(a: Regex, m: nat, b: Regex, n: nat, ic: bool)
    requires Plain(a, m, ic) && Plain(b, n, ic)
    ensures Plain(Cat(a, b), m + n, ic)
  {
  }

  lemma PlainTimes(k: CharClass, n: nat, ic: bool)
    requires k == Digit || k == HexDigit
    ensures Plain(Times(k, n), n, ic)
  {
  }

  lemma PlainSeparated(c: Unit, k: CharClass, n: nat, rest: Regex, m: nat, ic: bool)
    requires k == Digit || k == HexDigit
    requires c in [45, 58, 84] && Plain(rest, m, ic)
    ensures Plain(Cat(Char(One(c)), Cat(Times(k, n), rest)), 1 + n + m, ic)
  {
    PlainTimes(k, n, ic);
    PlainCat(Times(k, n), n, rest, m, ic);
    PlainCat(Char(One(c)), 1, Cat(Times(k, n), rest), n + m, ic);
  }

  lemma PlainInstant(rest: Regex, n: nat, ic: bool)
    requires Plain(rest, n, ic)
    ensures Plain(Instant(rest), 19 + n, ic)
  {
    var seconds := Colon(Cat(Times(Digit, 2), rest));
    var minutes := Colon(Cat(Times(Digit, 2), seconds));
    var hours := Cat(Char(One(84)), Cat(Times(Digit, 2), minutes));
    var days := Dash(Cat(Times(Digit, 2), hours));
    var months := Dash(Cat(Times(Digit, 2), days));
    PlainSeparated(58, Digit, 2, rest, n, ic);
    PlainSeparated(58, Digit, 2, seconds, 3 + n, ic);
    PlainSeparated(84, Digit, 2, minutes, 6 + n, ic);
    PlainSeparated(45, Digit, 2, hours, 9 + n, ic);
    PlainSeparated(45, Digit, 2, days, 12 + n, ic);
    PlainTimes(Digit, 4, ic);
    PlainCat(Times(Digit, 4), 4, months, 15 + n, ic);
  }

  lemma PlainOffset(ic: bool)
    ensures Plain(Cat(Char(Sign), Cat(Times(Digit, 2), Cat(Maybe(Char(One(58))), Times(Digit, 2)))), 5, ic)
  {
    var minutes := Cat(Maybe(Char(One(58))), Times(Digit, 2));
    PlainTimes(Digit, 2, ic);
    assert Plain(Maybe(Char(One(58))), 0, ic);
    PlainCat(Maybe(Char(One(58))), 0, Times(Digit, 2), 2, ic);
    PlainCat(Times(Digit, 2), 2, minutes, 2, ic);
    PlainCat(Char(Sign), 1, Cat(Times(Digit, 2), minutes), 4, ic);
  }

  lemma PlainMaybe(r: Regex, n: nat, ic: bool)
    requires Plain(r, n, ic)
    ensures Plain(Maybe(r), 0, ic)
  {
  }

  lemma PlainZone(ic: bool)
    ensures Plain(ZONE, 0, ic)
  {
    var offset := Cat(Char(Sign), Cat(Times(Digit, 2), Cat(Maybe(Char(One(58))), Times(Digit, 2))));
    PlainOffset(ic);
    var zone := Either(Char(One(90)), offset);
    assert Plain(zone, 1, ic);
    var fraction := Point(Repeat(Char(Digit), 1, Unbounded, true));
    assert Plain(Repeat(Char(Digit), 1, Unbounded, true), 1, ic);
    PlainCat(Char(One(46)), 1, Repeat(Char(Digit), 1, Unbounded, true), 1, ic);
    PlainMaybe(fraction, 2, ic);
    PlainMaybe(zone, 1, ic);
    PlainCat(Maybe(fraction), 0, Maybe(zone), 0, ic);
  }

  lemma PlainUuid(ic: bool)
    ensures Plain(UUID, 36, ic)
  {
    var g5 := Dash(Times(HexDigit, 12));
    var g4 := Dash(Cat(Times(HexDigit, 4), g5));
    var g3 := Dash(Cat(Times(HexDigit, 4), g4));
    PlainTimes(HexDigit, 12, ic);
    PlainCat(Char(One(45)), 1, Times(HexDigit, 12), 12, ic);
    PlainSeparated(45, HexDigit, 4, g5, 13, ic);
    PlainSeparated(45, HexDigit, 4, g4, 18, ic);
    PlainSeparated(45, HexDigit, 4, g3, 23, ic);
    PlainTimes(HexDigit, 8, ic);
    PlainCat(Times(HexDigit, 8), 8, Dash(Cat(Times(HexDigit, 4), g3)), 28, ic);
  }

  lemma PlainEmail()
    ensures Plain(EMAIL, 6, true)
  {
    var top := Repeat(Char(Letter), 2, AtMost(24), true);
    var names := Repeat(Char(Domain), 1, AtMost(255), true);
    var local := Repeat(Char(LocalPart), 1, AtMost(64), true);
    assert Plain(top, 2, true) && Plain(names, 1, true) && Plain(local, 1, true);
    PlainCat(Char(One(46)), 1, top, 2, true);
    PlainCat(names, 1, Point(top), 3, true);
    PlainCat(Char(One(64)), 1, HOST, 4, true);
    PlainCat(local, 1, Cat(Char(One(64)), HOST), 5, true);
  }

  lemma PlainDotted()
    ensures Plain(DOTTED, 7, false)
    ensures BeginsWithWord(DOTTED, false) && EndsWithWord(DOTTED, false)
  {
    assert Plain(OCTET, 1, false);
    assert BeginsWithWord(OCTET, false) && EndsWithWord(OCTET, false);
    PlainCat(Char(One(46)), 1, OCTET, 1, false);
    var rest := Repeat(Point(OCTET), 3, AtMost(3), true);
    assert Plain(rest, 6, false);
    PlainCat(OCTET, 1, rest, 6, false);
  }

  /** What the proofs below need to know of a pattern. */
  ghost predicate Shaped(r: Regex, edged: bool, ic: bool) {
    && MinLength(r) >= 6
    && Over(r, NotAngle, ic)
    && (if edged then Edged(r, ic) else ContextFree(r))
  }

  lemma EdgedShape(body: Regex, n: nat, ic: bool)
    requires n >= 6 && Plain(body, n, ic) && BeginsWithWord(body, ic) && EndsWithWord(body, ic)
    ensures Shaped(Bounded(body), true, ic)
  {
    assert MinLength(Cat(body, Edge)) == n && Over(Cat(body, Edge), NotAngle, ic);
  }

  /** The patterns with word boundaries. */
  predicate HasEdges(k: Kind) { k in [Ip, Hex, Id] }

  lemma PlainShape(r: Regex, n: nat, ic: bool)
    requires n >= 6 && Plain(r, n, ic)
    ensures Shaped(r, false, ic)
  {
  }

  lemma UuidShape(k: Kind, r: Regex)
    requires k == Uuid && r == Pattern(k)
    ensures Shaped(r, HasEdges(k), IgnoresCase(k))
  {
    PlainUuid(true);
    PlainShape(r, 36, true);
  }

  lemma TimestampShape(k: Kind, r: Regex)
    requires k == Timestamp && r == Pattern(k)
    ensures Shaped(r, HasEdges(k), IgnoresCase(k))
  {
    PlainZone(false);
    PlainInstant(ZONE, 0, false);
    PlainShape(r, 19, false);
  }

  lemma EmailShape(k: Kind, r: Regex)
    requires k == Email && r == Pattern(k)
    ensures Shaped(r, HasEdges(k), IgnoresCase(k))
  {
    PlainEmail();
    PlainShape(r, 6, true);
  }

  lemma IpShape(k: Kind, r: Regex)
    requires k == Ip && r == Pattern(k)
    ensures Shaped(r, HasEdges(k), IgnoresCase(k))
  {
    PlainDotted();
    EdgedShape(DOTTED, 7, false);
  }

  lemma HexShape(k: Kind, r: Regex)
    requires k == Hex && r == Pattern(k)
    ensures Shaped(r, HasEdges(k), IgnoresCase(k))
  {
    assert Plain(HEX_RUN, 16, true) && BeginsWithWord(HEX_RUN, true) && EndsWithWord(HEX_RUN, true);
    EdgedShape(HEX_RUN, 16, true);
  }

  lemma IdShape(k: Kind, r: Regex)
    requires k == Id && r == Pattern(k)
    ensures Shaped(r, HasEdges(k), IgnoresCase(k))
  {
    assert Plain(ID_RUN, 6, false) && BeginsWithWord(ID_RUN, false) && EndsWithWord(ID_RUN, false);
    EdgedShape(ID_RUN, 6, false);
  }

  lemma TokenIsToken(k: Kind)
    ensures IsToken(Token(k))
  {
  }

  lemma PatternShape(k: Kind, r: Regex)
    requires r == Pattern(k)
    ensures Shaped(r, HasEdges(k), IgnoresCase(k))
    ensures IsToken(Token(k))
  {
    TokenIsToken(k);
    match k
    case Uuid => UuidShape(k, r);
    case Timestamp => TimestampShape(k, r);
    case Email => EmailShape(k, r);
    case Ip => IpShape(k, r);
    case Hex => HexShape(k, r);
    case Id => IdShape(k, r);
  }

  // ------------------------------------------------------------ what a pass leaves

  /** No occurrence of `r` anywhere in `s`. */
  ghost predicate Free(r: Regex, s: Text, ic: bool) {
    forall i: nat, j: nat :: i <= j <= |s| ==> !Matches(r, s, i, j, ic)
  }

  lemma FreeIsUnchanged(r: Regex, token: Text, s: Text, ic: bool)
    requires MinLength(r) > 0 && Free(r, s, ic)
    ensures ReplaceFrom(r, token, s, 0, ic) == s
  {
    var p := Search(r, s, 0, ic);
    if p.Some? {
      EndAdvances(r, s, p.value, ic);
    }
  }

  ghost predicate NoAngles(s: Text, i: nat, j: nat)
    requires i <= j <= |s|
  {
    forall k :: i <= k < j ==> NotAngle(s[k])
  }

  /** The left neighbour of a copied window: the start of both texts, the same
      character, or a token put in for a match that ended there. */
  ghost predicate LeftOf(r: Regex, t: Text, x0: nat, out: Text, x: nat, i: nat, ic: bool)
    requires x0 <= |t| && x <= |out|
  {
    || (x == 0 && x0 == i)
    || (x > 0 && x0 > i && out[x - 1] == t[x0 - 1])
    || (x > 0 && out[x - 1] == GREATER && exists p: nat :: p <= x0 && Matches(r, t, p, x0, ic))
  }

  ghost predicate RightOf(r: Regex, t: Text, y0: nat, out: Text, y: nat, ic: bool)
    requires y0 <= |t| && y <= |out|
  {
    || (y == |out| && y0 == |t|)
    || (y < |out| && y0 < |t| && out[y] == t[y0])
    || (y < |out| && out[y] == LESS && exists q: nat :: y0 <= q <= |t| && Matches(r, t, y0, q, ic))
  }

  /** `out[x..y]` was copied from `t[x0..]`, where `r` does not match. */
  ghost predicate Copied(r: Regex, t: Text, i: nat, out: Text, x: nat, y: nat, x0: nat, ic: bool) {
    && x <= y <= |out|
    && i <= x0 && x0 + (y - x) <= |t|
    && out[x..y] == t[x0..x0 + (y - x)]
    && Ends(r, t, x0, ic) == []
    && LeftOf(r, t, x0, out, x, i, ic)
    && RightOf(r, t, x0 + (y - x), out, y, ic)
  }

  lemma CopiedBefore(r: Regex, t: Text, i: nat, p: nat, q: nat, out: Text, x: nat, y: nat, x0: nat, ic: bool)
    requires i <= p <= q <= |t| && Matches(r, t, p, q, ic) && x0 == i + x
    requires forall z: nat :: i <= z < p ==> Ends(r, t, z, ic) == []
    requires |out| > p - i && out[..p - i] == t[i..p] && out[p - i] == LESS
    requires x < y <= p - i
    ensures Copied(r, t, i, out, x, y, x0, ic)
  {
    var n := p - i;
    CopiedWindow(out, t, i, n, x, y);
    if x > 0 { CopiedAt(out, t, i, n, x - 1); }
    if y < n { CopiedAt(out, t, i, n, y); }
  }

  lemma CopiedAt(out: Text, t: Text, i: nat, n: nat, k: nat)
    requires k < n <= |out| && i + n <= |t| && out[..n] == t[i..i + n]
    ensures out[k] == t[i + k]
  {
    assert out[..n][k] == t[i..i + n][k];
  }

  lemma CopiedWindow(out: Text, t: Text, i: nat, n: nat, x: nat, y: nat)
    requires x <= y <= n <= |out| && i + n <= |t| && out[..n] == t[i..i + n]
    ensures out[x..y] == t[i + x..i + y]
  {
    forall k | x <= k < y ensures out[k] == t[i + k] {
      CopiedAt(out, t, i, n, k);
    }
  }

  lemma CopiedAfter(r: Regex, t: Text, i: nat, p: nat, q: nat, out: Text, rest: Text, m: nat, x: nat, y: nat, x0: nat,
        ic: bool)
    requires i <= p < q <= |t| && Matches(r, t, p, q, ic)
    requires 0 < m <= |out| && out[m..] == rest && out[m - 1] == GREATER
    requires m <= x <= y <= |out|
    requires Copied(r, t, q, rest, x - m, y - m, x0, ic)
    ensures Copied(r, t, i, out, x, y, x0, ic)
  {
    forall z | x <= z < y ensures out[z] == rest[z - m] {
    }
    assert out[x..y] == rest[x - m..y - m];
    if x > m { assert out[x - 1] == out[m..][x - 1 - m]; }
    if y < |out| { assert out[y] == out[m..][y - m]; }
  }

  lemma CopiedTail(r: Regex, t: Text, i: nat, out: Text, x: nat, y: nat, ic: bool)
    requires i <= |t| && out == t[i..] && x <= y <= |out|
    requires forall z: nat :: i <= z <= |t| ==> Ends(r, t, z, ic) == []
    ensures Copied(r, t, i, out, x, y, i + x, ic)
  {
    assert out[x..y] == t[i + x..i + y];
  }

  /** A window that reaches into a token holds an angle or is short. */
  lemma NoLongWindowInToken(token: Text, out: Text, n: nat, x: nat, y: nat)
    requires IsToken(token) && n + |token| <= |out| && out[n..n + |token|] == token
    requires x + 6 <= y <= |out| && NoAngles(out, x, y)
    ensures y <= n || x >= n + |token|
  {
    assert out[n] == out[n..n + |token|][0];
    assert out[n + |token| - 1] == out[n..n + |token|][|token| - 1];
  }

  lemma Parts(a: Text, token: Text, c: Text, out: Text, x: nat, y: nat)
    requires out == a + token + c && IsToken(token)
    requires x + 6 <= y <= |out| && NoAngles(out, x, y)
    ensures out[..|a|] == a && out[|a| + |token|..] == c
    ensures out[|a|] == LESS && out[|a| + |token| - 1] == GREATER
    ensures y <= |a| || x >= |a| + |token|
    ensures x >= |a| + |token| ==> NoAngles(c, x - |a| - |token|, y - |a| - |token|)
  {
    var m := |a| + |token|;
    assert out[|a|..m] == token;
    NoLongWindowInToken(token, out, |a|, x, y);
    assert out[|a|] == out[|a|..m][0] && out[m - 1] == out[|a|..m][|token| - 1];
    if x >= m {
      forall k | x - m <= k < y - m ensures NotAngle(c[k]) {
        assert c[k] == out[k + m];
      }
    }
  }

  /** The replacement step at the first match from `i` on. */
  lemma Unfold(r: Regex, token: Text, t: Text, i: nat, ic: bool) returns (p: nat, q: nat, rest: Text)
    requires MinLength(r) > 0 && i <= |t|
    requires Search(r, t, i, ic).Some?
    ensures i <= p < q <= |t| && Matches(r, t, p, q, ic)
    ensures forall z: nat :: i <= z < p ==> Ends(r, t, z, ic) == []
    ensures rest == ReplaceFrom(r, token, t, q, ic)
    ensures ReplaceFrom(r, token, t, i, ic) == t[i..p] + token + rest
  {
    p := Search(r, t, i, ic).value;
    EndAdvances(r, t, p, ic);
    q := Ends(r, t, p, ic)[0];
    rest := ReplaceFrom(r, token, t, q, ic);
  }

  /** A long window without angles in the output of a replacement was copied
      from the input, from a place where `r` does not match. */
  lemma {:induction false} Locate(r: Regex, token: Text, t: Text, i: nat, out: Text, x: nat, y: nat, ic: bool)
    returns (x0: nat)
    requires MinLength(r) > 0 && IsToken(token) && i <= |t|
    requires out == ReplaceFrom(r, token, t, i, ic)
    requires x + 6 <= y <= |out| && NoAngles(out, x, y)
    ensures Copied(r, t, i, out, x, y, x0, ic)
    decreases |t| - i, 0
  {
    if Search(r, t, i, ic).None? {
      x0 := i + x;
      CopiedTail(r, t, i, out, x, y, ic);
    } else {
      var p, q, rest := Unfold(r, token, t, i, ic);
      x0 := LocateStep(r, token, t, i, p, q, rest, out, x, y, ic);
    }
  }

  lemma {:induction false} LocateStep(r: Regex, token: Text, t: Text, i: nat, p: nat, q: nat, rest: Text, out: Text,
        x: nat, y: nat, ic: bool) returns (x0: nat)
    requires MinLength(r) > 0 && IsToken(token)
    requires i <= p < q <= |t| && Matches(r, t, p, q, ic)
    requires forall z: nat :: i <= z < p ==> Ends(r, t, z, ic) == []
    requires rest == ReplaceFrom(r, token, t, q, ic) && out == t[i..p] + token + rest
    requires x + 6 <= y <= |out| && NoAngles(out, x, y)
    ensures Copied(r, t, i, out, x, y, x0, ic)
    decreases |t| - q, 2
  {
    var a := t[i..p];
    assert |a| == p - i;
    Parts(a, token, rest, out, x, y);
    if y <= |a| {
      x0 := i + x;
      CopiedBefore(r, t, i, p, q, out, x, y, x0, ic);
    } else {
      x0 := LocateRest(r, token, t, i, p, q, rest, out, |a| + |token|, x, y, ic);
    }
  }

  lemma {:induction false} LocateRest(r: Regex, token: Text, t: Text, i: nat, p: nat, q: nat, rest: Text, out: Text,
        m: nat, x: nat, y: nat, ic: bool) returns (x0: nat)
    requires MinLength(r) > 0 && IsToken(token)
    requires i <= p < q <= |t| && Matches(r, t, p, q, ic)
    requires rest == ReplaceFrom(r, token, t, q, ic)
    requires 0 < m <= |out| && out[m..] == rest && out[m - 1] == GREATER
    requires m <= x && x + 6 <= y <= |out| && NoAngles(rest, x - m, y - m)
    ensures Copied(r, t, i, out, x, y, x0, ic)
    decreases |t| - q, 1
  {
    x0 := Locate(r, token, t, q, rest, x - m, y - m, ic);
    CopiedAfter(r, t, i, p, q, out, rest, m, x, y, x0, ic);
  }

  lemma EdgedParts(r: Regex, body: Regex, s: Text, i: nat, j: nat, ic: bool)
    requires i <= j <= |s| && r == Cat(Edge, Cat(body, Edge)) && Matches(r, s, i, j, ic)
    ensures IsEdge(s, i) && IsEdge(s, j) && Matches(body, s, i, j, ic)
  {
    var e: nat :| Between(i, e, j) && Matches(Edge, s, i, e, ic) && Matches(Cat(body, Edge), s, e, j, ic);
    var f: nat :| Between(e, f, j) && Matches(body, s, e, f, ic) && Matches(Edge, s, f, j, ic);
  }

  lemma EdgedMatch(r: Regex, s: Text, i: nat, j: nat, ic: bool)
    requires i <= j <= |s| && Edged(r, ic) && Matches(r, s, i, j, ic)
    ensures i < j && WordAt(s, i) && WordAt(s, j - 1)
    ensures !WordAt(s, i - 1) && !WordAt(s, j)
  {
    var body := r.second.first;
    EdgedParts(r, body, s, i, j, ic);
    MatchBeginsWithWord(body, s, i, j, ic);
    MatchEndsWithWord(body, s, i, j, ic);
  }

  /** A match found in the output of a pass already was a match in its input. */
  lemma MatchWasThere(other: Regex, oc: bool, r: Regex, t: Text, out: Text, x: nat, y: nat, x0: nat, ic: bool)
    requires Copied(r, t, 0, out, x, y, x0, ic)
    requires Matches(other, out, x, y, oc)
    requires ContextFree(other) || (Edged(other, oc) && Edged(r, ic))
    ensures Matches(other, t, x0, x0 + (y - x), oc)
  {
    var y0 := x0 + (y - x);
    if !ContextFree(other) {
      EdgedMatch(other, out, x, y, oc);
      assert out[x..y][0] == t[x0..y0][0] && out[x..y][y - x - 1] == t[x0..y0][y - x - 1];
      if p: nat :| p <= x0 && Matches(r, t, p, x0, ic) {
        EdgedMatch(r, t, p, x0, ic);
      }
      if q: nat :| y0 <= q <= |t| && Matches(r, t, y0, q, ic) {
        EdgedMatch(r, t, y0, q, ic);
      }
    }
    Transfer(other, out, x, y, t, x0, y0, oc);
  }

  /** A replacement never brings a pattern back, and leaves no match of its own. */
  lemma NoNewMatch(other: Regex, oc: bool, oe: bool, r: Regex, ic: bool, e: bool, token: Text, t: Text, out: Text,
        x: nat, y: nat)
    requires Shaped(other, oe, oc) && Shaped(r, e, ic) && IsToken(token)
    requires oe ==> e
    requires Free(other, t, oc) || (other == r && oc == ic)
    requires out == ReplaceFrom(r, token, t, 0, ic) && x <= y <= |out|
    ensures !Matches(other, out, x, y, oc)
  {
    if Matches(other, out, x, y, oc) {
      MatchLength(other, out, x, y, oc);
      MatchIsOver(other, NotAngle, out, x, y, oc);
      var x0 := Locate(r, token, t, 0, out, x, y, ic);
      MatchWasThere(other, oc, r, t, out, x, y, x0, ic);
      EndsAreMatches(r, t, x0, x0 + (y - x), ic);
      assert false;
    }
  }

  lemma StaysFree(other: Regex, oc: bool, oe: bool, r: Regex, ic: bool, e: bool, token: Text, t: Text)
    requires Shaped(other, oe, oc) && Shaped(r, e, ic) && IsToken(token)
    requires oe ==> e
    requires Free(other, t, oc) || (other == r && oc == ic)
    ensures Free(other, ReplaceFrom(r, token, t, 0, ic), oc)
  {
    var out := ReplaceFrom(r, token, t, 0, ic);
    forall x: nat, y: nat | x <= y <= |out| ensures !Matches(other, out, x, y, oc) {
      NoNewMatch(other, oc, oe, r, ic, e, token, t, out, x, y);
    }
  }

  lemma PassKeepsFree(k: Kind, other: Regex, last: Kind, r: Regex, t: Text)
    requires other == Pattern(k) && r == Pattern(last)
    requires HasEdges(k) ==> HasEdges(last)
    requires Free(other, t, IgnoresCase(k)) || k == last
    ensures MinLength(r) > 0
    ensures Free(other, ReplaceFrom(r, Token(last), t, 0, IgnoresCase(last)), IgnoresCase(k))
  {
    PatternShape(k, other);
    PatternShape(last, r);
    StaysFree(other, IgnoresCase(k), HasEdges(k), r, IgnoresCase(last), HasEdges(last), Token(last), t);
  }

  /** After `n` passes none of the first `n` patterns occurs any more. */
  lemma {:induction false} PassesAreFree(m: Text, n: nat, i: nat, k: Kind, other: Regex)
    requires i < n <= |KINDS| && k == KINDS[i] && other == Pattern(k)
    ensures Free(other, Passes(m, n), IgnoresCase(k))
  {
    var last, t := KINDS[n - 1], Passes(m, n - 1);
    if i < n - 1 {
      PassesAreFree(m, n - 1, i, k, other);
    }
    EdgesAreLast(i, n, k, last);
    PassIsFree(k, other, last, t);
    LastPass(m, n, last, t);
  }

  lemma LastPass(m: Text, n: nat, last: Kind, t: Text)
    requires 0 < n <= |KINDS| && last == KINDS[n - 1] && t == Passes(m, n - 1)
    ensures Passes(m, n) == Pass(last, t)
  {
  }

  /** The patterns with word boundaries come last. */
  lemma EdgesAreLast(i: nat, n: nat, k: Kind, last: Kind)
    requires i < n <= |KINDS| && k == KINDS[i] && last == KINDS[n - 1]
    ensures HasEdges(k) ==> HasEdges(last)
    ensures i == n - 1 ==> k == last
  {
  }

  lemma PassIsFree(k: Kind, other: Regex, last: Kind, t: Text)
    requires other == Pattern(k) && (HasEdges(k) ==> HasEdges(last)) && (Free(other, t, IgnoresCase(k)) || k == last)
    ensures Free(other, Pass(last, t), IgnoresCase(k))
  {
    PassKeepsFree(k, other, last, Pattern(last), t);
  }

  function Rank(k: Kind): (i: nat)
    ensures i < |KINDS| && KINDS[i] == k
  {
    match k case Uuid => 0 case Timestamp => 1 case Email => 2 case Ip => 3 case Hex => 4 case Id => 5
  }

  /** No value that would be stripped is left in a preprocessed message. */
  lemma NothingLeft(m: Text, k: Kind)
    ensures Free(Pattern(k), Preprocessed(m), IgnoresCase(k))
  {
    PassesAreFree(m, |KINDS|, Rank(k), k, Pattern(k));
  }

  lemma {:induction false} FixedPoint(m: Text, n: nat)
    requires n <= |KINDS|
    ensures Passes(Preprocessed(m), n) == Preprocessed(m)
  {
    if n > 0 {
      FixedPoint(m, n - 1);
      var k := KINDS[n - 1];
      NothingLeft(m, k);
      PatternShape(k, Pattern(k));
      FreeIsUnchanged(Pattern(k), Token(k), Preprocessed(m), IgnoresCase(k));
    }
  }

  /** Preprocessing is idempotent on every message. */
  lemma PreprocessIsIdempotent(m: Text)
    ensures Preprocessed(Preprocessed(m)) == Preprocessed(m)
  {
    FixedPoint(m, |KINDS|);
  }
}
