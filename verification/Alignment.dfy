/**
  Drill-down soundness: a template keeps, through all six passes, an alignment
  with the message it came from, and the compiler walks that alignment.
*/
module Alignment {
  import opened Base
  import opened Regex
  import opened RegexFacts
  import opened Preprocess
  import opened Drilldown

  /** A template is a row of characters kept from the message and tokens that
      stand for a span of it. */
  datatype Piece = Kept(c: Unit) | Stripped(token: Text, finder: Regex, span: Text)

  function Shown(p: Piece): Text {
    match p case Kept(c) => [c] case Stripped(token, _, _) => token
  }

  function Original(p: Piece): Text {
    match p case Kept(c) => [c] case Stripped(_, _, span) => span
  }

  function Render(ps: seq<Piece>): Text { if ps == [] then [] else Shown(ps[0]) + Render(ps[1..]) }

  function Source(ps: seq<Piece>): Text { if ps == [] then [] else Original(ps[0]) + Source(ps[1..]) }

  /** A span that is longer than the name of a token and holds no angle. */
  ghost predicate IsSpan(s: Text) { |s| >= 6 && NoAngles(s, 0, |s|) }

  /** The finder of a stripped piece consumes the whole span it replaced. */
  ghost predicate Finds(p: Piece) {
    p.Stripped? ==> IsToken(p.token) && |p.span| in Ends(p.finder, p.span, 0, true) && IsSpan(p.span)
  }

  /** The piece's token and finder are a row of the placeholder map. */
  predicate Labelled(table: seq<Entry>, p: Piece) {
    p.Stripped? ==> Lookup(table, p.token) == Some(Entry(p.token, p.finder, false))
  }

  ghost predicate AllFind(ps: seq<Piece>) { forall i :: 0 <= i < |ps| ==> Finds(ps[i]) }

  predicate AllLabelled(table: seq<Entry>, ps: seq<Piece>) { forall i :: 0 <= i < |ps| ==> Labelled(table, ps[i]) }

  ghost predicate Aligned(table: seq<Entry>, ps: seq<Piece>, template: Text, message: Text) {
    Render(ps) == template && Source(ps) == message && AllFind(ps) && AllLabelled(table, ps)
  }

  predicate AllKept(ps: seq<Piece>) { forall i :: 0 <= i < |ps| ==> ps[i].Kept? }

  lemma {:induction false} RenderAppend(a: seq<Piece>, b: seq<Piece>)
    ensures Render(a + b) == Render(a) + Render(b)
  {
    if a == [] {
      assert a + b == b;
    } else {
      RenderAppend(a[1..], b);
      assert (a + b)[1..] == a[1..] + b;
      assert Shown(a[0]) + (Render(a[1..]) + Render(b)) == Render(a) + Render(b);
    }
  }

  lemma {:induction false} SourceAppend(a: seq<Piece>, b: seq<Piece>)
    ensures Source(a + b) == Source(a) + Source(b)
  {
    if a == [] {
      assert a + b == b;
    } else {
      SourceAppend(a[1..], b);
      assert (a + b)[1..] == a[1..] + b;
      assert Original(a[0]) + (Source(a[1..]) + Source(b)) == Source(a) + Source(b);
    }
  }

  lemma {:induction false} KeptIsVerbatim(ps: seq<Piece>)
    requires AllKept(ps)
    ensures Render(ps) == Source(ps) && |Render(ps)| == |ps|
  {
    if ps != [] {
      KeptIsVerbatim(ps[1..]);
    }
  }

  // --------------------------------------------- the drill-down expression is looser

  /** Wherever `r` matches up to `j`, so does `r'`. */
  ghost predicate Refines(r: Regex, r': Regex, s: Text, j: nat, ic: bool)
    requires j <= |s|
  {
    forall i: nat :: i <= j && Matches(r, s, i, j, ic) ==> Matches(r', s, i, j, ic)
  }

  lemma CatRefines(a: Regex, b: Regex, b': Regex, s: Text, j: nat, ic: bool)
    requires j <= |s| && Refines(b, b', s, j, ic)
    ensures Refines(Cat(a, b), Cat(a, b'), s, j, ic)
  {
    forall i: nat | i <= j && Matches(Cat(a, b), s, i, j, ic)
      ensures Matches(Cat(a, b'), s, i, j, ic)
    {
      var e: nat :| Between(i, e, j) && Matches(a, s, i, e, ic) && Matches(b, s, e, j, ic);
      assert Matches(b', s, e, j, ic);
    }
  }

  lemma InstantRefines(rest: Regex, rest': Regex, s: Text, j: nat, ic: bool)
    requires j <= |s| && Refines(rest, rest', s, j, ic)
    ensures Refines(Instant(rest), Instant(rest'), s, j, ic)
  {
    var d2, d4, dash, colon, t := Times(Digit, 2), Times(Digit, 4), Char(One(45)), Char(One(58)), Char(One(84));
    var s1, s1' := Cat(d2, rest), Cat(d2, rest');
    CatRefines(d2, rest, rest', s, j, ic);
    var s2, s2' := Cat(colon, s1), Cat(colon, s1');
    CatRefines(colon, s1, s1', s, j, ic);
    var s3, s3' := Cat(d2, s2), Cat(d2, s2');
    CatRefines(d2, s2, s2', s, j, ic);
    var s4, s4' := Cat(colon, s3), Cat(colon, s3');
    CatRefines(colon, s3, s3', s, j, ic);
    var s5, s5' := Cat(d2, s4), Cat(d2, s4');
    CatRefines(d2, s4, s4', s, j, ic);
    var s6, s6' := Cat(t, s5), Cat(t, s5');
    CatRefines(t, s5, s5', s, j, ic);
    var s7, s7' := Cat(d2, s6), Cat(d2, s6');
    CatRefines(d2, s6, s6', s, j, ic);
    var s8, s8' := Cat(dash, s7), Cat(dash, s7');
    CatRefines(dash, s7, s7', s, j, ic);
    var s9, s9' := Cat(d2, s8), Cat(d2, s8');
    CatRefines(d2, s8, s8', s, j, ic);
    var s10, s10' := Cat(dash, s9), Cat(dash, s9');
    CatRefines(dash, s9, s9', s, j, ic);
    CatRefines(d4, s10, s10', s, j, ic);
  }

  lemma {:induction false} IgnoringCaseMatches(r: Regex, s: Text, i: nat, j: nat)
    requires i <= j <= |s| && Matches(r, s, i, j, false)
    ensures Matches(r, s, i, j, true)
    decreases r, 0, 0, 0
  {
    match r
    case Cat(a, b) =>
      var e: nat :| Between(i, e, j) && Matches(a, s, i, e, false) && Matches(b, s, e, j, false);
      IgnoringCaseMatches(a, s, i, e);
      IgnoringCaseMatches(b, s, e, j);
      assert Between(i, e, j);
    case Either(a, b) =>
      if Matches(a, s, i, j, false) { IgnoringCaseMatches(a, s, i, j); } else { IgnoringCaseMatches(b, s, i, j); }
    case Repeat(b, min, max, _) => IgnoringCaseCopies(b, min, max, s, i, j);
    case _ =>
  }

  lemma {:induction false} IgnoringCaseCopies(r: Regex, min: nat, max: Bound, s: Text, i: nat, j: nat)
    requires i <= j <= |s| && Copies(r, min, max, s, i, j, false)
    ensures Copies(r, min, max, s, i, j, true)
    decreases r, 1, min, j - i
  {
    if !(min == 0 && i == j) {
      var e: nat :| Between(i, e, j) && (min > 0 || e > i) && Matches(r, s, i, e, false) &&
                    Copies(r, Pred(min), Dec(max), s, e, j, false);
      IgnoringCaseMatches(r, s, i, e);
      IgnoringCaseCopies(r, Pred(min), Dec(max), s, e, j);
      assert Between(i, e, j);
    }
  }

  lemma {:induction false} LiftBound(r: Regex, min: nat, max: Bound, s: Text, i: nat, j: nat, ic: bool)
    requires i <= j <= |s| && Copies(r, min, max, s, i, j, ic)
    ensures Copies(r, min, Unbounded, s, i, j, ic)
    decreases min, j - i
  {
    if !(min == 0 && i == j) {
      var e: nat :| Between(i, e, j) && (min > 0 || e > i) && Matches(r, s, i, e, ic) &&
                    Copies(r, Pred(min), Dec(max), s, e, j, ic);
      LiftBound(r, Pred(min), Dec(max), s, e, j, ic);
      assert Between(i, e, j);
    }
  }

  lemma EmailIsFound(s: Text, i: nat, j: nat)
    requires i <= j <= |s| && Matches(EMAIL, s, i, j, true)
    ensures Matches(LOOSE_EMAIL, s, i, j, true)
  {
    var local, loose := Repeat(Char(LocalPart), 1, AtMost(64), true), Repeat(Char(LocalPart), 1, Unbounded, true);
    var at := Cat(Char(One(64)), HOST);
    var e: nat :| Between(i, e, j) && Matches(local, s, i, e, true) && Matches(at, s, e, j, true);
    var f: nat :| Between(e, f, j) && Matches(Char(One(64)), s, e, f, true) && Matches(HOST, s, f, j, true);
    LiftBound(Char(LocalPart), 1, AtMost(64), s, i, e, true);
    HostIsDomain(s, f, j);
    var domain := Repeat(Char(Domain), 1, Unbounded, true);
    assert Between(e, f, j);
    assert Matches(Cat(Char(One(64)), domain), s, e, j, true);
    assert Between(i, e, j);
    assert Matches(loose, s, i, e, true);
  }

  lemma HostIsDomain(s: Text, i: nat, j: nat)
    requires i <= j <= |s| && Matches(HOST, s, i, j, true)
    ensures Matches(Repeat(Char(Domain), 1, Unbounded, true), s, i, j, true)
  {
    var ok := (c: Unit) => In(Domain, c, true);
    assert Over(HOST, ok, true) by {
      assert Over(Repeat(Char(Domain), 1, AtMost(255), true), ok, true);
      assert Over(Repeat(Char(Letter), 2, AtMost(24), true), ok, true);
    }
    MatchIsOver(HOST, ok, s, i, j, true);
    MatchLength(HOST, s, i, j, true);
    ClassRun(Domain, 1, Unbounded, s, i, j, true);
  }

  lemma ZoneIsOverNonSpace(ok: Unit -> bool, offset: Regex)
    requires ok == ((c: Unit) => In(NotSpace, c, true))
    requires offset == Cat(Char(Sign), Cat(Times(Digit, 2), Cat(Maybe(Char(One(58))), Times(Digit, 2))))
    ensures Over(ZONE, ok, true)
  {
    assert Over(Cat(Times(Digit, 2), Cat(Maybe(Char(One(58))), Times(Digit, 2))), ok, true);
    assert Over(offset, ok, true);
    assert Over(Maybe(Either(Char(One(90)), offset)), ok, true);
    assert Over(Maybe(Point(Repeat(Char(Digit), 1, Unbounded, true))), ok, true);
  }

  lemma ZoneHasNoSpace(s: Text, j: nat)
    requires j <= |s|
    ensures Refines(ZONE, NON_SPACES, s, j, true)
  {
    forall i: nat | i <= j && Matches(ZONE, s, i, j, true)
      ensures Matches(NON_SPACES, s, i, j, true)
    {
      var ok := (c: Unit) => In(NotSpace, c, true);
      var offset := Cat(Char(Sign), Cat(Times(Digit, 2), Cat(Maybe(Char(One(58))), Times(Digit, 2))));
      ZoneIsOverNonSpace(ok, offset);
      MatchIsOver(ZONE, ok, s, i, j, true);
      ClassRun(NotSpace, 0, Unbounded, s, i, j, true);
    }
  }

  lemma BodyOfBounded(body: Regex, s: Text, i: nat, j: nat, ic: bool)
    requires i <= j <= |s| && Matches(Bounded(body), s, i, j, ic)
    ensures Matches(body, s, i, j, ic)
  {
    var e: nat :| Between(i, e, j) && Matches(Edge, s, i, e, ic) && Matches(Cat(body, Edge), s, e, j, ic);
    var f: nat :| Between(e, f, j) && Matches(body, s, e, f, ic) && Matches(Edge, s, f, j, ic);
  }

  lemma ThreePoints(s: Text, i: nat, j: nat, ic: bool) returns (e: nat, f: nat)
    requires i <= j <= |s| && Copies(Point(OCTET), 3, AtMost(3), s, i, j, ic)
    ensures i <= e <= f <= j
    ensures Matches(Point(OCTET), s, i, e, ic) && Matches(Point(OCTET), s, e, f, ic)
            && Matches(Point(OCTET), s, f, j, ic)
  {
    e :| Between(i, e, j) && Matches(Point(OCTET), s, i, e, ic) && Copies(Point(OCTET), 2, AtMost(2), s, e, j, ic);
    f :| Between(e, f, j) && Matches(Point(OCTET), s, e, f, ic) && Copies(Point(OCTET), 1, AtMost(1), s, f, j, ic);
    var g: nat :| Between(f, g, j) && Matches(Point(OCTET), s, f, g, ic)
        && Copies(Point(OCTET), 0, AtMost(0), s, g, j, ic);
  }

  /** `.octet` followed by `rest` is `.(octet rest)`. */
  lemma PointJoin(rest: Regex, s: Text, i: nat, e: nat, j: nat, ic: bool)
    requires i <= e <= j <= |s| && Matches(Point(OCTET), s, i, e, ic) && Matches(rest, s, e, j, ic)
    ensures Matches(Point(Cat(OCTET, rest)), s, i, j, ic)
  {
    var d: nat :| Between(i, d, e) && Matches(Char(One(46)), s, i, d, ic) && Matches(OCTET, s, d, e, ic);
    assert Between(d, e, j);
    assert Matches(Cat(OCTET, rest), s, d, j, ic);
    assert Between(i, d, j);
  }

  lemma DottedIsFound(s: Text, i: nat, j: nat)
    requires i <= j <= |s| && Matches(DOTTED, s, i, j, true)
    ensures Matches(FLAT_DOTTED, s, i, j, true)
  {
    var d: nat :| Between(i, d, j) && Matches(OCTET, s, i, d, true)
                  && Matches(Repeat(Point(OCTET), 3, AtMost(3), true), s, d, j, true);
    var e, f := ThreePoints(s, d, j, true);
    PointJoin(Point(OCTET), s, e, f, j, true);
    PointJoin(Point(Cat(OCTET, Point(OCTET))), s, d, e, j, true);
    assert Between(i, d, j);
  }

  /** Whatever a pass strips, the expression its token compiles to finds again. */
  lemma SpanIsFound(k: Kind, s: Text, i: nat, j: nat)
    requires i <= j <= |s| && Matches(Pattern(k), s, i, j, IgnoresCase(k))
    ensures Matches(Finder(k), s, i, j, true)
  {
    if !IgnoresCase(k) {
      IgnoringCaseMatches(Pattern(k), s, i, j);
    }
    match k
    case Uuid =>
    case Timestamp =>
      ZoneHasNoSpace(s, j);
      InstantRefines(ZONE, NON_SPACES, s, j, true);
    case Email => EmailIsFound(s, i, j);
    case Ip =>
      BodyOfBounded(DOTTED, s, i, j, true);
      DottedIsFound(s, i, j);
    case Hex => BodyOfBounded(HEX_RUN, s, i, j, true);
    case Id => BodyOfBounded(ID_RUN, s, i, j, true);
  }

  // ------------------------------------------------------ a pass keeps the alignment

  /** A run without angles at the front is made of kept characters. */
  lemma {:induction false} FrontIsKept(ps: seq<Piece>, n: nat)
    requires AllFind(ps) && n <= |Render(ps)| && NoAngles(Render(ps), 0, n)
    ensures n <= |ps| && AllKept(ps[..n])
  {
    if n > 0 {
      assert Render(ps)[0] == Shown(ps[0])[0];
      assert Finds(ps[0]);
      assert ps[0].Kept?;
      forall k | 0 <= k < n - 1 ensures NotAngle(Render(ps[1..])[k]) {
        assert Render(ps)[k + 1] == Render(ps[1..])[k];
      }
      FrontIsKept(ps[1..], n - 1);
      assert ps[..n] == [ps[0]] + ps[1..][..n - 1];
    }
  }

  lemma SkipFirst(ps: seq<Piece>, x: nat, y: nat)
    requires AllFind(ps) && 0 < x && x + 6 <= y <= |Render(ps)| && NoAngles(Render(ps), x, y)
    ensures ps != [] && |Shown(ps[0])| <= x
    ensures NoAngles(Render(ps[1..]), x - |Shown(ps[0])|, y - |Shown(ps[0])|)
  {
    var head, tail := Shown(ps[0]), Render(ps[1..]);
    var n := |head|;
    assert Finds(ps[0]);
    assert Render(ps) == head + tail;
    if ps[0].Stripped? {
      assert Render(ps)[0..n] == head;
      NoLongWindowInToken(head, Render(ps), 0, x, y);
    }
    forall k | x - n <= k < y - n ensures NotAngle(tail[k]) {
      assert tail[k] == Render(ps)[k + n];
    }
  }

  lemma RenderFirst(ps: seq<Piece>, b: nat, x: nat)
    requires b < |ps| && |Shown(ps[0])| <= x <= |Render(ps)|
    requires Render(ps[1..][..b]) == Render(ps[1..])[..x - |Shown(ps[0])|]
    ensures Render(ps[..b + 1]) == Render(ps)[..x]
  {
    var qs := ps[..b + 1];
    assert qs[1..] == ps[1..][..b] && qs[0] == ps[0];
    var head, tail := Shown(ps[0]), Render(ps[1..]);
    assert (head + tail)[..x] == head + tail[..x - |head|];
  }

  /** A long run without angles is a run of kept characters: no match of a pass
      can touch a token put in earlier. */
  lemma {:induction false} WindowIsKept(ps: seq<Piece>, x: nat, y: nat) returns (a: nat)
    requires AllFind(ps) && x + 6 <= y <= |Render(ps)| && NoAngles(Render(ps), x, y)
    ensures a + (y - x) <= |ps| && AllKept(ps[a..a + (y - x)])
    ensures Render(ps[..a]) == Render(ps)[..x]
  {
    if x == 0 {
      a := 0;
      FrontIsKept(ps, y);
      assert ps[0..y] == ps[..y] && ps[..0] == [];
    } else {
      SkipFirst(ps, x, y);
      var n := |Shown(ps[0])|;
      var b := WindowIsKept(ps[1..], x - n, y - n);
      a := b + 1;
      assert ps[a..a + (y - x)] == ps[1..][b..b + (y - x)];
      RenderFirst(ps, b, x);
    }
  }

  /** What three rows of pieces render and stand for. */
  lemma ThreeTexts(a: seq<Piece>, b: seq<Piece>, c: seq<Piece>)
    ensures Render(a + b + c) == Render(a) + Render(b) + Render(c)
    ensures Source(a + b + c) == Source(a) + Source(b) + Source(c)
  {
    RenderAppend(a + b, c);
    RenderAppend(a, b);
    SourceAppend(a + b, c);
    SourceAppend(a, b);
  }

  /** Cutting the pieces at a kept window. */
  lemma CutAtWindow(ps: seq<Piece>, x: nat, y: nat) returns (before: seq<Piece>, kept: seq<Piece>, after: seq<Piece>)
    requires AllFind(ps) && x + 6 <= y <= |Render(ps)| && NoAngles(Render(ps), x, y)
    ensures ps == before + kept + after
    ensures Render(before) == Render(ps)[..x] && Render(after) == Render(ps)[y..]
    ensures Source(kept) == Render(ps)[x..y]
    ensures Source(ps) == Source(before) + Source(kept) + Source(after)
  {
    var a := WindowIsKept(ps, x, y);
    var b := a + (y - x);
    before, kept, after := ps[..a], ps[a..b], ps[b..];
    assert ps == before + kept + after;
    ThreeTexts(before, kept, after);
    KeptIsVerbatim(kept);
    assert |Render(before)| == x && |Render(kept)| == y - x;
    assert Render(ps)[x..y] == Render(kept);
    assert Render(ps)[y..] == Render(after);
  }

  lemma MatchIsPlain(r: Regex, edged: bool, t: Text, i: nat, p: nat, q: nat, ic: bool)
    requires Shaped(r, edged, ic) && i <= p <= q <= |t| && Matches(r, t, p, q, ic)
    ensures p + 6 <= q && NoAngles(t[i..], p - i, q - i)
  {
    MatchLength(r, t, p, q, ic);
    MatchIsOver(r, NotAngle, t, p, q, ic);
  }

  lemma SpanStandsAlone(finder: Regex, t: Text, p: nat, q: nat, span: Text)
    requires p <= q <= |t| && span == t[p..q] && ContextFree(finder) && Matches(finder, t, p, q, true)
    ensures |span| in Ends(finder, span, 0, true)
  {
    var n := |span|;
    assert span[0..n] == t[p..q];
    Transfer(finder, t, p, q, span, 0, n, true);
    EndsAreMatches(finder, span, 0, n, true);
  }

  lemma OnePiece(piece: Piece)
    ensures Render([piece]) == Shown(piece) && Source([piece]) == Original(piece)
  {
    assert [piece][1..] == [] && Shown(piece) + [] == Shown(piece) && Original(piece) + [] == Original(piece);
  }

  lemma JoinTexts(before: seq<Piece>, piece: Piece, tail: seq<Piece>)
    ensures Render(before + [piece] + tail) == Render(before) + Shown(piece) + Render(tail)
    ensures Source(before + [piece] + tail) == Source(before) + Original(piece) + Source(tail)
  {
    var one := [piece];
    OnePiece(piece);
    RenderAppend(before + one, tail);
    RenderAppend(before, one);
    SourceAppend(before + one, tail);
    SourceAppend(before, one);
  }

  /** One replacement pass, from position `i` of the template on. */
  lemma {:induction false} PassKeepsPieces(table: seq<Entry>, k: Kind, r: Regex, token: Text, finder: Regex,
        ps: seq<Piece>, t: Text, i: nat, ic: bool)
    returns (qs: seq<Piece>)
    requires r == Pattern(k) && ic == IgnoresCase(k) && token == Token(k) && finder == Finder(k)
             && Lookup(table, token) == Some(Entry(token, finder, false))
    requires Shaped(r, HasEdges(k), ic) && IsToken(token)
    requires i <= |t| && Render(ps) == t[i..] && AllFind(ps) && AllLabelled(table, ps)
    ensures Render(qs) == ReplaceFrom(r, token, t, i, ic)
    ensures Source(qs) == Source(ps) && AllFind(qs) && AllLabelled(table, qs)
    decreases |t| - i, 1
  {
    if Search(r, t, i, ic).None? {
      qs := ps;
    } else {
      var p, q, rest := Unfold(r, token, t, i, ic);
      qs := MatchKeepsPieces(table, k, r, token, finder, ps, t, i, p, q, ic);
    }
  }

  lemma {:induction false} MatchKeepsPieces(table: seq<Entry>, k: Kind, r: Regex, token: Text, finder: Regex,
        ps: seq<Piece>, t: Text, i: nat, p: nat, q: nat, ic: bool) returns (qs: seq<Piece>)
    requires r == Pattern(k) && ic == IgnoresCase(k) && token == Token(k) && finder == Finder(k)
             && Lookup(table, token) == Some(Entry(token, finder, false))
    requires Shaped(r, HasEdges(k), ic) && IsToken(token)
    requires i <= p < q <= |t| && Matches(r, t, p, q, ic)
    requires Render(ps) == t[i..] && AllFind(ps) && AllLabelled(table, ps)
    ensures Render(qs) == t[i..p] + token + ReplaceFrom(r, token, t, q, ic)
    ensures Source(qs) == Source(ps) && AllFind(qs) && AllLabelled(table, qs)
    decreases |t| - i, 0
  {
    MatchIsPlain(r, HasEdges(k), t, i, p, q, ic);
    var before, kept, after := CutAtMatch(ps, t, i, p, q);
    Parted(table, ps, before, kept, after);
    var tail := PassKeepsPieces(table, k, r, token, finder, after, t, q, ic);
    var piece := StripSpan(table, k, r, token, finder, t, p, q, ic);
    qs := before + [piece] + tail;
    JoinTexts(before, piece, tail);
    JoinFinds(table, before, piece, tail);
  }

  lemma SuffixSlices(t: Text, i: nat, p: nat, q: nat)
    requires i <= p <= q <= |t|
    ensures t[i..][..p - i] == t[i..p] && t[i..][p - i..q - i] == t[p..q] && t[i..][q - i..] == t[q..]
  {
  }

  lemma CutAtMatch(ps: seq<Piece>, t: Text, i: nat, p: nat, q: nat)
    returns (before: seq<Piece>, kept: seq<Piece>, after: seq<Piece>)
    requires i <= p && p + 6 <= q <= |t| && NoAngles(t[i..], p - i, q - i)
    requires Render(ps) == t[i..] && AllFind(ps)
    ensures ps == before + kept + after
    ensures Render(before) == t[i..p] && Render(after) == t[q..]
    ensures Source(ps) == Source(before) + t[p..q] + Source(after)
  {
    var text := Render(ps);
    before, kept, after := CutAtWindow(ps, p - i, q - i);
    SuffixSlices(t, i, p, q);
    assert Source(kept) == text[p - i..q - i] == t[p..q];
    assert Render(before) == text[..p - i] == t[i..p];
  }

  lemma StripSpan(table: seq<Entry>, k: Kind, r: Regex, token: Text, finder: Regex, t: Text, p: nat, q: nat, ic: bool)
    returns (piece: Piece)
    requires r == Pattern(k) && ic == IgnoresCase(k) && token == Token(k) && finder == Finder(k)
             && Lookup(table, token) == Some(Entry(token, finder, false))
    requires IsToken(token) && Shaped(r, HasEdges(k), ic) && p < q <= |t| && Matches(r, t, p, q, ic)
    ensures Finds(piece) && Labelled(table, piece) && Shown(piece) == token && Original(piece) == t[p..q]
  {
    var span := t[p..q];
    piece := Stripped(token, finder, span);
    SpanIsFound(k, t, p, q);
    FinderIsContextFree(k, finder);
    SpanStandsAlone(finder, t, p, q, span);
    StrippedIsSpan(r, HasEdges(k), t, p, q, span, ic);
  }

  lemma StrippedIsSpan(r: Regex, edged: bool, t: Text, p: nat, q: nat, span: Text, ic: bool)
    requires Shaped(r, edged, ic) && p <= q <= |t| && Matches(r, t, p, q, ic) && span == t[p..q]
    ensures IsSpan(span)
  {
    MatchLength(r, t, p, q, ic);
    MatchIsOver(r, NotAngle, t, p, q, ic);
  }

  lemma JoinFinds(table: seq<Entry>, before: seq<Piece>, piece: Piece, tail: seq<Piece>)
    requires AllFind(before) && AllFind(tail) && Finds(piece)
    requires AllLabelled(table, before) && AllLabelled(table, tail) && Labelled(table, piece)
    ensures AllFind(before + [piece] + tail) && AllLabelled(table, before + [piece] + tail)
  {
  }

  lemma Parted(table: seq<Entry>, ps: seq<Piece>, before: seq<Piece>, kept: seq<Piece>, after: seq<Piece>)
    requires ps == before + kept + after && AllFind(ps) && AllLabelled(table, ps)
    ensures AllFind(before) && AllLabelled(table, before) && AllFind(after) && AllLabelled(table, after)
  {
    forall i | 0 <= i < |before| ensures Finds(before[i]) && Labelled(table, before[i]) {
      assert before[i] == ps[i];
    }
    forall i | 0 <= i < |after| ensures Finds(after[i]) && Labelled(table, after[i]) {
      assert after[i] == ps[|before| + |kept| + i];
    }
  }

  // --------------------------------------------------- all passes keep the alignment

  function Characters(m: Text): (ps: seq<Piece>) {
    if m == [] then [] else [Kept(m[0])] + Characters(m[1..])
  }

  lemma {:induction false} CharactersAreAligned(table: seq<Entry>, m: Text)
    ensures Aligned(table, Characters(m), m, m)
  {
    if m != [] {
      CharactersAreAligned(table, m[1..]);
      assert m == [m[0]] + m[1..];
      assert Characters(m)[1..] == Characters(m[1..]);
    }
  }

  lemma PassIsAligned(table: seq<Entry>, k: Kind, r: Regex, ps: seq<Piece>, t: Text, m: Text, ic: bool)
    returns (qs: seq<Piece>)
    requires r == Pattern(k) && ic == IgnoresCase(k) && Aligned(table, ps, t, m)
             && Lookup(table, Token(k)) == Some(ValueEntry(k))
    ensures MinLength(r) > 0
    ensures Aligned(table, qs, ReplaceFrom(r, Token(k), t, 0, ic), m)
  {
    PatternShape(k, r);
    assert t[0..] == t;
    qs := PassKeepsPieces(table, k, r, Token(k), Finder(k), ps, t, 0, ic);
  }

  /** After any number of passes the template is aligned with the message. */
  lemma {:induction false} PassesAreAligned(table: seq<Entry>, m: Text, n: nat) returns (ps: seq<Piece>)
    requires n <= |KINDS| && forall k :: Lookup(table, Token(k)) == Some(ValueEntry(k))
    ensures Aligned(table, ps, Passes(m, n), m)
  {
    if n == 0 {
      ps := Characters(m);
      CharactersAreAligned(table, m);
    } else {
      var before := PassesAreAligned(table, m, n - 1);
      var k := KINDS[n - 1];
      ps := PassIsAligned(table, k, Pattern(k), before, Passes(m, n - 1), m, IgnoresCase(k));
      assert Passes(m, n) == Pass(k, Passes(m, n - 1));
    }
  }
}
