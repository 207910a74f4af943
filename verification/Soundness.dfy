/**
  The compiled template matches the message: the compiler, reading the template,
  meets exactly the tokens of its alignment with the message. The walk is proved
  for every placeholder map whose rows have the shape below.
*/
module Soundness {
  import opened Base
  import opened Regex
  import opened RegexFacts
  import opened Preprocess
  import opened Drilldown
  import opened Alignment

  /** No token but the wildcard's is in the message. */
  ghost predicate HoldsNoValue(table: seq<Entry>, m: Text) {
    forall t, i: nat :: Lookup(table, t).Some? && !Lookup(table, t).value.wild ==> !StartsWith(m, i, t)
  }

  ghost predicate WellFormed(table: seq<Entry>) {
    && HasTokens(table)
    && forall t :: Lookup(table, t).Some? ==>
         ContextFree(Lookup(table, t).value.regex)
             && (Lookup(table, t).value.wild ==> Lookup(table, t).value == WILD_ENTRY)
  }

  /** Every piece is found by its row of the map. */
  ghost predicate Sound(table: seq<Entry>, ps: seq<Piece>) {
    ps == [] || (Finds(ps[0]) && Labelled(table, ps[0]) && Sound(table, ps[1..]))
  }

  lemma {:induction false} AlignedIsSound(table: seq<Entry>, ps: seq<Piece>)
    requires AllFind(ps) && AllLabelled(table, ps)
    ensures Sound(table, ps)
  {
    if ps != [] {
      assert Finds(ps[0]) && Labelled(table, ps[0]);
      AlignedIsSound(table, ps[1..]);
    }
  }

  // --------------------------------------------------------- matching a list of parts

  /** `r`, which does not look around, consumes exactly `s`. */
  ghost predicate Whole(r: Regex, s: Text) { ContextFree(r) && |s| in Ends(r, s, 0, true) }

  lemma WholeCat(a: Regex, s: Text, b: Regex, t: Text)
    requires Whole(a, s) && Whole(b, t)
    ensures Whole(Cat(a, b), s + t)
  {
    var m := s + t;
    EndsAreMatches(a, s, 0, |s|, true);
    EndsAreMatches(b, t, 0, |t|, true);
    assert m[0..|s|] == s[0..|s|] && m[|s|..|m|] == t[0..|t|];
    Transfer(a, s, 0, |s|, m, 0, |s|, true);
    Transfer(b, t, 0, |t|, m, |s|, |m|, true);
    assert Between(0, |s|, |m|);
    EndsAreMatches(Cat(a, b), m, 0, |m|, true);
  }

  lemma WholePart(p: Part, s: Text, rest: seq<Part>, t: Text)
    requires Whole(PartRegex(p), s) && Whole(RegexOf(rest), t)
    ensures Whole(RegexOf([p] + rest), s + t)
  {
    assert ([p] + rest)[1..] == rest;
    WholeCat(PartRegex(p), s, RegexOf(rest), t);
  }

  lemma {:induction false} VerbatimIsWhole(t: Text)
    ensures Whole(Verbatim(t), t)
  {
    if t != [] {
      VerbatimIsWhole(t[1..]);
      WholeCat(Char(One(t[0])), [t[0]], Verbatim(t[1..]), t[1..]);
      assert [t[0]] + t[1..] == t;
    }
  }

  lemma LiteralIsWhole(t: Text)
    ensures Whole(PartRegex(Literal(EscapeRegExp(t))), t)
  {
    EscapeReadsBack(t);
    VerbatimIsWhole(t);
  }

  /** A run of literal text in front of parts that match the rest. */
  lemma WholeRun(run: Text, rest: seq<Part>, t: Text)
    requires Whole(RegexOf(rest), t)
    ensures Whole(RegexOf(Run(run) + rest), run + t)
  {
    if run == [] {
      assert Run(run) + rest == rest && run + t == t;
    } else {
      LiteralIsWhole(run);
      WholePart(Literal(EscapeRegExp(run)), run, rest, t);
    }
  }

  /** `<*>` taken from the message is consumed, as a wildcard or as a literal. */
  lemma WildIsWhole(wild: nat)
    ensures Whole(PartRegex(EntryPart(WILD_ENTRY, wild)), WILD_TOKEN)
  {
    if wild >= MAX_WILDCARDS {
      LiteralIsWhole(WILD_TOKEN);
    } else {
      ClassRun(Dot, 0, Unbounded, WILD_TOKEN, 0, 3, true);
      EndsAreMatches(ANYTHING, WILD_TOKEN, 0, 3, true);
    }
  }

  // --------------------------------------------------------- walking along the pieces

  /** At most one token begins a text. */
  lemma TokensAgree(a: Text, x: Text, b: Text, y: Text)
    requires IsToken(a) && IsToken(b) && a + x == b + y
    ensures a == b && x == y
  {
    var n := if |a| < |b| then |a| else |b|;
    assert a[n - 1] == (a + x)[n - 1] == (b + y)[n - 1] == b[n - 1];
    assert a == (a + x)[..|a|] == (b + y)[..|b|] == b;
    assert x == (a + x)[|a|..] == (b + y)[|b|..] == y;
  }

  /** What is left when a token that begins `rest` is taken off. */
  lemma TokenOff(rest: Text, token: Text)
    requires StartsWith(rest, 0, token)
    ensures rest == token + rest[|token|..]
  {
    assert rest[0..0 + |token|] == token;
  }

  /** A stripped piece is what the compiler sees at the front of the template. */
  lemma StrippedIsNext(table: seq<Entry>, p: Piece, rest: Text)
    requires WellFormed(table) && p.Stripped? && Finds(p) && Labelled(table, p)
    ensures EntryAt(table, p.token + rest, 0) == Some(Entry(p.token, p.finder, false))
    ensures (p.token + rest)[|p.token|..] == rest
  {
    var t := p.token + rest;
    assert StartsWith(t, 0, p.token);
    var e := EntryAt(table, t, 0).value;
    TokenOff(t, e.token);
    TokensAgree(e.token, t[|e.token|..], p.token, rest);
  }

  /** A token that begins with a kept character is made of kept characters. */
  lemma {:induction false} KeptToken(table: seq<Entry>, ps: seq<Piece>, token: Text, n: nat)
    requires Sound(table, ps) && IsToken(token) && n < |token|
    requires StartsWith(Render(ps), 0, token[n..]) && (n == 0 ==> ps != [] && ps[0].Kept?)
    ensures |token| - n <= |ps| && AllKept(ps[..|token| - n])
    decreases |token| - n
  {
    var rest := token[n..];
    TokenOff(Render(ps), rest);
    assert Render(ps)[0] == token[n];
    if n + 1 < |token| {
      assert Render(ps[1..]) == Render(ps)[1..];
      assert token[n + 1..] == rest[1..];
      assert Render(ps)[1..][0..|rest| - 1] == Render(ps)[0..|rest|][1..];
      KeptToken(table, ps[1..], token, n + 1);
      assert ps[..|token| - n] == [ps[0]] + ps[1..][..|token| - n - 1];
    } else {
      assert ps[..1] == [ps[0]];
    }
  }

  lemma {:induction false} SoundSuffix(table: seq<Entry>, ps: seq<Piece>, n: nat)
    requires Sound(table, ps) && n <= |ps|
    ensures Sound(table, ps[n..])
  {
    if n > 0 {
      SoundSuffix(table, ps[1..], n - 1);
      assert ps[n..] == ps[1..][n - 1..];
    } else {
      assert ps[n..] == ps;
    }
  }

  /** Kept characters that show a token: the message has it too. */
  lemma KeptTokenOff(table: seq<Entry>, ps: seq<Piece>, token: Text)
    requires Sound(table, ps) && IsToken(token) && ps != [] && ps[0].Kept?
    requires StartsWith(Render(ps), 0, token)
    ensures |token| <= |ps| && Sound(table, ps[|token|..])
    ensures Render(ps)[|token|..] == Render(ps[|token|..])
    ensures Source(ps) == token + Source(ps[|token|..])
  {
    var n := |token|;
    assert token[0..] == token;
    KeptToken(table, ps, token, 0);
    assert ps == ps[..n] + ps[n..];
    RenderAppend(ps[..n], ps[n..]);
    SourceAppend(ps[..n], ps[n..]);
    KeptIsVerbatim(ps[..n]);
    assert Render(ps)[0..0 + n] == Render(ps[..n]);
    SoundSuffix(table, ps, n);
  }

  lemma NoValueInSuffix(table: seq<Entry>, a: Text, b: Text)
    requires HoldsNoValue(table, a + b)
    ensures HoldsNoValue(table, b)
  {
    forall t, i: nat | Lookup(table, t).Some? && !Lookup(table, t).value.wild
      ensures !StartsWith(b, i, t)
    {
      if StartsWith(b, i, t) {
        assert (a + b)[|a| + i..|a| + i + |t|] == b[i..i + |t|];
        assert StartsWith(a + b, |a| + i, t);
      }
    }
  }

  lemma RegroupRun(run: Text, c: Unit, tail: Text)
    ensures (run + [c]) + tail == run + ([c] + tail)
  {
  }

  lemma PushEntry(run: Text, part: Part, span: Text, rest: seq<Part>, tail: Text)
    requires Whole(PartRegex(part), span) && Whole(RegexOf(rest), tail)
    ensures Whole(RegexOf(Run(run) + ([part] + rest)), run + (span + tail))
  {
    WholePart(part, span, rest, tail);
    WholeRun(run, [part] + rest, span + tail);
  }

  /** The parts compiled from the rest of the template, after the literal `run`,
      match `run` followed by the rest of the message. */
  lemma {:induction false} ScanMatches(table: seq<Entry>, ps: seq<Piece>, run: Text, wild: nat)
    requires WellFormed(table) && Sound(table, ps) && HoldsNoValue(table, Source(ps))
    ensures Whole(RegexOf(Scan(table, Render(ps), run, wild)), run + Source(ps))
    decreases |ps|
  {
    var t := Render(ps);
    if ps == [] {
      assert EntryAt(table, t, 0) == None by {
        if EntryAt(table, t, 0).Some? {
          TokenOff(t, EntryAt(table, t, 0).value.token);
        }
      }
      WholeRun(run, [], []);
      assert Run(run) + [] == Run(run);
    } else if ps[0].Stripped? {
      ScanStripped(table, ps, run, wild);
    } else if EntryAt(table, t, 0).Some? {
      ScanWild(table, ps, run, wild, EntryAt(table, t, 0).value);
    } else {
      NoValueInSuffix(table, [ps[0].c], Source(ps[1..]));
      ScanMatches(table, ps[1..], run + [ps[0].c], wild);
      RegroupRun(run, ps[0].c, Source(ps[1..]));
      assert t[1..] == Render(ps[1..]);
    }
  }

  lemma {:induction false} ScanStripped(table: seq<Entry>, ps: seq<Piece>, run: Text, wild: nat)
    requires WellFormed(table) && Sound(table, ps) && HoldsNoValue(table, Source(ps))
    requires ps != [] && ps[0].Stripped?
    ensures Whole(RegexOf(Scan(table, Render(ps), run, wild)), run + Source(ps))
    decreases |ps|, 0
  {
    var p, tail := ps[0], ps[1..];
    var e := Entry(p.token, p.finder, false);
    StrippedIsNext(table, p, Render(tail));
    NoValueInSuffix(table, p.span, Source(tail));
    ScanMatches(table, tail, [], wild);
    assert [] + Source(tail) == Source(tail);
    assert Lookup(table, p.token).value == e;
    PushEntry(run, EntryPart(e, wild), p.span, Scan(table, Render(tail), [], wild), Source(tail));
  }

  lemma {:induction false} ScanWild(table: seq<Entry>, ps: seq<Piece>, run: Text, wild: nat, e: Entry)
    requires WellFormed(table) && Sound(table, ps) && HoldsNoValue(table, Source(ps))
    requires ps != [] && ps[0].Kept? && EntryAt(table, Render(ps), 0) == Some(e)
    ensures Whole(RegexOf(Scan(table, Render(ps), run, wild)), run + Source(ps))
    decreases |ps|, 0
  {
    KeptTokenOff(table, ps, e.token);
    var tail := ps[|e.token|..];
    assert StartsWith(Source(ps), 0, e.token);
    assert e == WILD_ENTRY;
    NoValueInSuffix(table, e.token, Source(tail));
    ScanMatches(table, tail, [], Spent(e, wild));
    assert [] + Source(tail) == Source(tail);
    WildIsWhole(wild);
    PushEntry(run, EntryPart(e, wild), e.token, Scan(table, Render(tail), [], Spent(e, wild)), Source(tail));
  }

  // -------------------------------------------------------------- the placeholder map

  lemma MapIsWellFormed(table: seq<Entry>)
    requires table == PlaceholderMap()
    ensures WellFormed(table)
  {
    MapHasTokens();
    forall t | Lookup(table, t).Some?
      ensures ContextFree(Lookup(table, t).value.regex)
              && (Lookup(table, t).value.wild ==> Lookup(table, t).value == WILD_ENTRY)
    {
      LookupIsRow(table, t);
      RowShape(Lookup(table, t).value, t, Lookup(table, t).value.regex);
    }
  }

  /** The message contains none of the six value tokens. It may contain `<*>`. */
  ghost predicate HoldsNoToken(m: Text) {
    forall k: Kind, i: nat :: !StartsWith(m, i, Token(k))
  }

  lemma MapHolds(k: Kind)
    ensures Lookup(PlaceholderMap(), Token(k)) == Some(ValueEntry(k))
  {
  }

  lemma NoValueInMap(m: Text, table: seq<Entry>)
    requires HoldsNoToken(m) && table == PlaceholderMap()
    ensures HoldsNoValue(table, m)
  {
    forall t, i: nat | Lookup(table, t).Some? && !Lookup(table, t).value.wild ensures !StartsWith(m, i, t) {
      LookupIsRow(table, t);
      var k :| Lookup(table, t).value == ValueEntry(k);
    }
  }

  lemma SourceOfNothing(ps: seq<Piece>)
    requires Render(ps) == [] && AllFind(ps)
    ensures Source(ps) == []
  {
    assert ps == [] || Finds(ps[0]);
  }

  lemma TemplateMatches(table: seq<Entry>, m: Text, template: Text)
    requires WellFormed(table) && HoldsNoValue(table, m)
    requires template == Preprocessed(m) && forall k :: Lookup(table, Token(k)) == Some(ValueEntry(k))
    ensures |m| in Ends(RegexOf(Scan(table, template, [], 0)), m, 0, true)
    ensures template == [] ==> m == []
  {
    var ps := PassesAreAligned(table, m, |KINDS|);
    AlignedIsSound(table, ps);
    ScanMatches(table, ps, [], 0);
    assert [] + m == m;
    if template == [] {
      SourceOfNothing(ps);
    }
  }

  /** Drill-down soundness: the template of a message finds the whole message. */
  lemma DrilldownFindsMessage(m: Text)
    requires HoldsNoToken(m) && |Preprocessed(m)| <= MAX_TEMPLATE_LENGTH
    ensures MatchesAllOf(Compile(Preprocessed(m)), m)
  {
    var table, template := PlaceholderMap(), Preprocessed(m);
    forall k ensures Lookup(table, Token(k)) == Some(ValueEntry(k)) {
      MapHolds(k);
    }
    MapIsWellFormed(table);
    NoValueInMap(m, table);
    TemplateMatches(table, m, template);
  }

  // ------------------------------------------------------------- beyond the length cap

  /** No value token of the template lies across position `n`. */
  ghost predicate CutsNoToken(template: Text, n: nat) {
    forall k: Kind, i: nat :: StartsWith(template, i, Token(k)) ==> !(i < n < i + |Token(k)|)
  }

  lemma StartsBehind(head: Text, tail: Text, i: nat, t: Text)
    requires StartsWith(tail, i, t)
    ensures StartsWith(head + tail, |head| + i, t)
  {
    assert (head + tail)[|head| + i..|head| + i + |t|] == tail[i..i + |t|];
  }

  /** A cut that splits no token of the map falls between two pieces. */
  lemma {:induction false} CutBetweenPieces(table: seq<Entry>, ps: seq<Piece>, n: nat) returns (a: nat)
    requires Sound(table, ps) && n <= |Render(ps)|
    requires forall t, i: nat :: Lookup(table, t).Some? && !Lookup(table, t).value.wild && StartsWith(Render(ps), i, t)
                                 ==> !(i < n < i + |t|)
    ensures a <= |ps| && Render(ps[..a]) == Render(ps)[..n]
    decreases |ps|
  {
    if n == 0 {
      a := 0;
    } else {
      var head, tail := Shown(ps[0]), Render(ps[1..]);
      assert StartsWith(Render(ps), 0, head);
      assert |head| <= n;
      forall t, i: nat | Lookup(table, t).Some? && !Lookup(table, t).value.wild && StartsWith(tail, i, t)
        ensures !(i < n - |head| < i + |t|)
      {
        StartsBehind(head, tail, i, t);
      }
      var b := CutBetweenPieces(table, ps[1..], n - |head|);
      a := b + 1;
      assert ps[..a][1..] == ps[1..][..b];
      assert (head + tail)[..n] == head + tail[..n - |head|];
    }
  }

  lemma {:induction false} SoundPrefix(table: seq<Entry>, ps: seq<Piece>, n: nat)
    requires Sound(table, ps) && n <= |ps|
    ensures Sound(table, ps[..n])
  {
    if n > 0 {
      SoundPrefix(table, ps[1..], n - 1);
      assert ps[..n][1..] == ps[1..][..n - 1];
    }
  }

  lemma NoValueInPrefix(table: seq<Entry>, a: Text, b: Text)
    requires HoldsNoValue(table, a + b)
    ensures HoldsNoValue(table, a)
  {
    forall t, i: nat | Lookup(table, t).Some? && !Lookup(table, t).value.wild
      ensures !StartsWith(a, i, t)
    {
      if StartsWith(a, i, t) {
        assert (a + b)[i..i + |t|] == a[i..i + |t|];
        assert StartsWith(a + b, i, t);
      }
    }
  }

  /** What an expression consumes of a prefix it consumes of the whole. */
  lemma WholePrefix(r: Regex, front: Text, rest: Text, m: Text)
    requires Whole(r, front) && m == front + rest
    ensures |front| <= |m| && |front| in Ends(r, m, 0, true)
  {
    var e := |front|;
    EndsAreMatches(r, front, 0, e, true);
    assert m[0..e] == front[0..e];
    Transfer(r, front, 0, e, m, 0, e, true);
    EndsAreMatches(r, m, 0, e, true);
  }

  lemma FrontMatches(table: seq<Entry>, ps: seq<Piece>, rest: Text, m: Text, r: Regex)
    requires WellFormed(table) && Sound(table, ps) && HoldsNoValue(table, m) && m == Source(ps) + rest
    requires r == RegexOf(Scan(table, Render(ps), [], 0))
    ensures |Source(ps)| <= |m| && |Source(ps)| in Ends(r, m, 0, true)
  {
    NoValueInPrefix(table, Source(ps), rest);
    ScanMatches(table, ps, [], 0);
    assert [] + Source(ps) == Source(ps);
    WholePrefix(r, Source(ps), rest, m);
  }

  lemma PrefixMatches(table: seq<Entry>, m: Text, template: Text, n: nat) returns (e: nat)
    requires WellFormed(table) && HoldsNoValue(table, m)
    requires template == Preprocessed(m) && forall k :: Lookup(table, Token(k)) == Some(ValueEntry(k))
    requires n <= |template|
    requires forall t, i: nat :: Lookup(table, t).Some? && !Lookup(table, t).value.wild && StartsWith(template, i, t)
                                 ==> !(i < n < i + |t|)
    ensures e <= |m| && e in Ends(RegexOf(Scan(table, template[..n], [], 0)), m, 0, true)
  {
    var ps := PassesAreAligned(table, m, |KINDS|);
    AlignedIsSound(table, ps);
    var a := CutBetweenPieces(table, ps, n);
    var front, back := ps[..a], ps[a..];
    assert ps == front + back;
    SourceAppend(front, back);
    SoundPrefix(table, ps, a);
    e := |Source(front)|;
    FrontMatches(table, front, Source(back), m, RegexOf(Scan(table, template[..n], [], 0)));
  }

  lemma NoTokenCutInMap(template: Text, n: nat, table: seq<Entry>)
    requires CutsNoToken(template, n) && table == PlaceholderMap()
    ensures forall t, i: nat :: Lookup(table, t).Some? && !Lookup(table, t).value.wild && StartsWith(template, i, t)
                                ==> !(i < n < i + |t|)
  {
    forall t, i: nat | Lookup(table, t).Some? && !Lookup(table, t).value.wild && StartsWith(template, i, t)
      ensures !(i < n < i + |t|)
    {
      LookupIsRow(table, t);
      var k :| Lookup(table, t).value == ValueEntry(k);
    }
  }

  /** A longer template is cut at the cap. As long as the cut splits no token, the
      expression still matches at the start of the message. */
  lemma LongTemplateFindsMessage(m: Text)
    requires HoldsNoToken(m) && CutsNoToken(Preprocessed(m), MAX_TEMPLATE_LENGTH)
    requires |Preprocessed(m)| > MAX_TEMPLATE_LENGTH
    ensures Compile(Preprocessed(m)).Joined?
    ensures Ends(RegexOf(Compile(Preprocessed(m)).parts), m, 0, true) != []
  {
    var table, template := PlaceholderMap(), Preprocessed(m);
    forall k ensures Lookup(table, Token(k)) == Some(ValueEntry(k)) {
      MapHolds(k);
    }
    MapIsWellFormed(table);
    NoValueInMap(m, table);
    NoTokenCutInMap(template, MAX_TEMPLATE_LENGTH, table);
    var e := PrefixMatches(table, m, template, MAX_TEMPLATE_LENGTH);
  }

  // ------------------------------------------------------- messages that hold a token

  /** Short texts hold nothing to strip. */
  lemma {:induction false} ShortIsUnchanged(m: Text, n: nat)
    requires |m| < 6 && n <= |KINDS|
    ensures Passes(m, n) == m
  {
    if n > 0 {
      ShortIsUnchanged(m, n - 1);
      var k := KINDS[n - 1];
      var r := Pattern(k);
      PatternShape(k, r);
      forall i: nat, j: nat | i <= j <= |m| ensures !Matches(r, m, i, j, IgnoresCase(k)) {
        if Matches(r, m, i, j, IgnoresCase(k)) {
          MatchLength(r, m, i, j, IgnoresCase(k));
        }
      }
      FreeIsUnchanged(r, Token(k), m, IgnoresCase(k));
    }
  }

  lemma TooShortForId(m: Text, i: nat, r: Regex)
    requires i <= |m| < 6 && r == Cat(ID_RUN, Empty)
    ensures Ends(r, m, i, true) == []
  {
    if Ends(r, m, i, true) != [] {
      var e := Ends(r, m, i, true)[0];
      assert e in Ends(r, m, i, true);
      EndsAreMatches(r, m, i, e, true);
      MatchLength(r, m, i, e, true);
    }
  }

  lemma CompileOneToken(k: Kind, table: seq<Entry>)
    requires table == PlaceholderMap()
    ensures Compile(Token(k)) == Joined([Hole(Finder(k))])
  {
    MapIsWellFormed(table);
    MapHolds(k);
    PatternShape(k, Pattern(k));
    ScanOneToken(table, ValueEntry(k), 0);
  }

  /** A message that holds a token can be lost altogether: `<ID>` is its own
      template, whose expression matches nowhere in it. */
  lemma TokenInMessageIsLost(m: Text)
    requires m == Token(Id)
    ensures Preprocessed(m) == m && Compile(m) == Joined([Hole(ID_RUN)])
    ensures forall i: nat :: i <= |m| ==> Ends(RegexOf([Hole(ID_RUN)]), m, i, true) == []
  {
    ShortIsUnchanged(m, |KINDS|);
    CompileOneToken(Id, PlaceholderMap());
    var r := RegexOf([Hole(ID_RUN)]);
    assert r == Cat(ID_RUN, Empty);
    forall i: nat | i <= |m| ensures Ends(r, m, i, true) == [] {
      TooShortForId(m, i, r);
    }
  }

  lemma ScanOneToken(table: seq<Entry>, e: Entry, wild: nat)
    requires WellFormed(table) && Lookup(table, e.token) == Some(e) && !e.wild
    ensures Scan(table, e.token, [], wild) == [Hole(e.regex)]
  {
    var t := e.token;
    assert t[0..|t|] == t && StartsWith(t, 0, t);
    var f := EntryAt(table, t, 0).value;
    TokenOff(t, f.token);
    assert t == t + [];
    TokensAgree(f.token, t[|f.token|..], t, []);
    assert t[|t|..] == [];
    assert EntryAt(table, [], 0) == None by {
      if EntryAt(table, [], 0).Some? {
        TokenOff([], EntryAt(table, [], 0).value.token);
      }
    }
  }
}
