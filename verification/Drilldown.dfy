/**
  Compiling a template back into an expression that finds the raw lines it stands
  for (services/api/src/connectors/template-regex.ts), and the agreement between
  that compiler and the preprocessing passes.
*/
module Drilldown {
  import opened Base
  import opened Regex
  import opened RegexFacts
  import opened Preprocess

  const MAX_TEMPLATE_LENGTH := 4096
  const MAX_WILDCARDS := 64

  /** The clusterer's wildcard `<*>`. */
  const WILD_TOKEN: Text := [LESS, STAR, GREATER]

  /** [a-zA-Z0-9._%+-]+@[a-zA-Z0-9.-]+ */
  const LOOSE_EMAIL: Regex :=
    Cat(Repeat(Char(LocalPart), 1, Unbounded, true), Cat(Char(One(64)), Repeat(Char(Domain), 1, Unbounded, true)))

  /** \d{1,3}\.\d{1,3}\.\d{1,3}\.\d{1,3} */
  const FLAT_DOTTED: Regex := Cat(OCTET, Point(Cat(OCTET, Point(Cat(OCTET, Point(OCTET))))))

  /** [^ ]* */
  const NON_SPACES: Regex := Repeat(Char(NotSpace), 0, Unbounded, true)

  /** .*? */
  const ANYTHING: Regex := Repeat(Char(Dot), 0, Unbounded, false)

  /** The expression that a value token compiles to. */
  function Finder(k: Kind): Regex {
    match k
    case Uuid => UUID
    case Ip => FLAT_DOTTED
    case Id => ID_RUN
    case Email => LOOSE_EMAIL
    case Timestamp => Instant(NON_SPACES)
    case Hex => HEX_RUN
  }

  /** A row of the placeholder map. */
  datatype Entry = Entry(token: Text, regex: Regex, wild: bool)

  function ValueEntry(k: Kind): Entry { Entry(Token(k), Finder(k), false) }

  const WILD_ENTRY: Entry := Entry(WILD_TOKEN, ANYTHING, true)

  /** The placeholder map, in the order of the alternation
      <UUID>|<IP>|<ID>|<EMAIL>|<TS>|<HEX>|<*>. */
  function PlaceholderMap(): seq<Entry> {
    [ValueEntry(Uuid), ValueEntry(Ip), ValueEntry(Id), ValueEntry(Email), ValueEntry(Timestamp), ValueEntry(Hex),
        WILD_ENTRY]
  }

  // --------------------------------------------------------------------- escaping

  /** The syntax characters of the expression grammar: . * + ? ^ $ { } ( ) | [ ] \ */
  predicate IsSyntax(c: Unit) { c in [46, 42, 43, 63, 94, 36, 123, 125, 40, 41, 124, 91, 93, 92] }

  const BACKSLASH: Unit := 92

  const SYNTAX: string := ".*+?^${}()|[]\\"

  lemma SyntaxIs(c: Unit)
    ensures IsSyntax(c) <==> c <= 127 && c as char in SYNTAX
  {
    var at := [46, 42, 43, 63, 94, 36, 123, 125, 40, 41, 124, 91, 93, 92];
    assert forall k :: 0 <= k < 14 ==> SYNTAX[k] as int == at[k];
  }

  function EscapeRegExp(s: Text): Text {
    if s == [] then []
    else (if IsSyntax(s[0]) then [BACKSLASH, s[0]] else [s[0]]) + EscapeRegExp(s[1..])
  }

  /** How the expression grammar reads a run of plain and escaped characters:
      an unescaped syntax character is not a character of the text. */
  function ReadLiteral(source: Text): Option<Text> {
    if source == [] then Some([])
    else if source[0] == BACKSLASH then
      if |source| > 1 && IsSyntax(source[1])
      then (match ReadLiteral(source[2..]) case None => None case Some(t) => Some([source[1]] + t))
      else None
    else if IsSyntax(source[0]) then None
    else match ReadLiteral(source[1..]) case None => None case Some(t) => Some([source[0]] + t)
  }

  lemma {:induction false} EscapeReadsBack(s: Text)
    ensures ReadLiteral(EscapeRegExp(s)) == Some(s)
  {
    if s != [] {
      EscapeReadsBack(s[1..]);
      var e, tail := EscapeRegExp(s), EscapeRegExp(s[1..]);
      if IsSyntax(s[0]) {
        assert e[0] == BACKSLASH && e[1] == s[0] && e[2..] == tail;
      } else {
        assert e[0] == s[0] && e[1..] == tail;
      }
      assert s == [s[0]] + s[1..];
    }
  }

  // -------------------------------------------------------------------- compiling

  predicate StartsWith(text: Text, i: nat, token: Text) {
    i + |token| <= |text| && text[i..i + |token|] == token
  }

  /** The row of a token: PLACEHOLDER_MAP.get. */
  function Lookup(table: seq<Entry>, token: Text): (e: Option<Entry>)
    ensures e.Some? ==> e.value.token == token
  {
    if table == [] then None
    else if table[0].token == token then Some(table[0])
    else Lookup(table[1..], token)
  }

  /** The first row of `table` whose token begins at `i`. */
  function EntryAt(table: seq<Entry>, text: Text, i: nat): (e: Option<Entry>)
    ensures e.Some? ==> StartsWith(text, i, e.value.token) && Lookup(table, e.value.token) == e
    ensures e.None? ==> forall t :: Lookup(table, t).Some? ==> !StartsWith(text, i, t)
  {
    if table == [] then None
    else if StartsWith(text, i, table[0].token) then Some(table[0])
    else EntryAt(table[1..], text, i)
  }

  datatype Found = Found(index: nat, entry: Entry)

  /** `f` is the leftmost placeholder at or after `i`. */
  ghost predicate IsNext(table: seq<Entry>, text: Text, i: nat, f: Found) {
    && i <= f.index <= |text| && EntryAt(table, text, f.index) == Some(f.entry)
    && forall x: nat :: i <= x < f.index ==> EntryAt(table, text, x) == None
  }

  function NextToken(table: seq<Entry>, text: Text, i: nat): Option<Found>
    requires i <= |text|
    decreases |text| - i
  {
    if EntryAt(table, text, i).Some? then Some(Found(i, EntryAt(table, text, i).value))
    else if i == |text| then None
    else NextToken(table, text, i + 1)
  }

  lemma {:induction false} NextTokenIs(table: seq<Entry>, text: Text, i: nat)
    requires i <= |text|
    ensures var f := NextToken(table, text, i);
            if f.Some? then IsNext(table, text, i, f.value)
            else forall x: nat :: i <= x <= |text| ==> EntryAt(table, text, x) == None
    decreases |text| - i
  {
    if EntryAt(table, text, i).None? && i < |text| {
      NextTokenIs(table, text, i + 1);
    }
  }

  /** A piece of expression source: an escaped literal, or a row of the map. */
  datatype Part = Literal(source: Text) | Hole(regex: Regex)

  /** What the loop pushes for a placeholder once `wild` wildcards are compiled. */
  function EntryPart(e: Entry, wild: nat): Part {
    if e.wild && wild >= MAX_WILDCARDS then Literal(EscapeRegExp(e.token)) else Hole(e.regex)
  }

  function Spent(e: Entry, wild: nat): nat {
    if e.wild && wild < MAX_WILDCARDS then wild + 1 else wild
  }

  /** Tokens are bracketed; in particular they are not empty, so the scan advances. */
  ghost predicate HasTokens(table: seq<Entry>) { forall t :: Lookup(table, t).Some? ==> IsToken(t) }

  /** A literal part, when there is any text for it. */
  function Run(run: Text): seq<Part> { if run == [] then [] else [Literal(EscapeRegExp(run))] }

  /** The parts of a template, read one character at a time: `run` is the literal
      text since the last placeholder. */
  function Scan(table: seq<Entry>, t: Text, run: Text, wild: nat): seq<Part>
    requires HasTokens(table)
    decreases |t|
  {
    match EntryAt(table, t, 0)
    case Some(e) => Run(run) + ([EntryPart(e, wild)] + Scan(table, t[|e.token|..], [], Spent(e, wild)))
    case None => if t == [] then Run(run) else Scan(table, t[1..], run + [t[0]], wild)
  }

  /** /^$/ for the empty template, else the concatenation of the parts, flag i. */
  datatype Compiled = OnlyEmpty | Joined(parts: seq<Part>)

  function Truncated(template: Text): Text {
    if |template| > MAX_TEMPLATE_LENGTH then template[..MAX_TEMPLATE_LENGTH] else template
  }

  /** A property of every row is a property of every row that a lookup returns. */
  lemma {:induction false} LookupIsRow(table: seq<Entry>, token: Text)
    requires Lookup(table, token).Some?
    ensures Lookup(table, token).value in table
  {
    if table[0].token != token {
      LookupIsRow(table[1..], token);
    }
  }

  /** The shape of a row: a bracketed token, an expression blind to the context. */
  lemma RowShape(e: Entry, token: Text, r: Regex)
    requires e in PlaceholderMap() && token == e.token && r == e.regex
    ensures IsToken(token) && ContextFree(r) && (e.wild ==> e == WILD_ENTRY)
  {
    if e != WILD_ENTRY {
      var k := KindOf(PlaceholderMap(), e);
      TokenIsToken(k);
      FinderIsContextFree(k, r);
    }
  }

  // -------------------------------------------------------------- the wildcard budget

  /** How many parts are wildcards. */
  function WildParts(parts: seq<Part>): nat {
    if parts == [] then 0 else (if parts[0] == Hole(ANYTHING) then 1 else 0) + WildParts(parts[1..])
  }

  /** How many placeholders of a text are wildcards. */
  function WildTokens(table: seq<Entry>, t: Text): nat
    requires HasTokens(table)
    decreases |t|
  {
    match EntryAt(table, t, 0)
    case Some(e) => (if e.token == [60, 42, 62] then 1 else 0) + WildTokens(table, t[|e.token|..])
    case None => if t == [] then 0 else WildTokens(table, t[1..])
  }

  lemma {:induction false} WildPartsConcat(a: seq<Part>, b: seq<Part>)
    ensures WildParts(a + b) == WildParts(a) + WildParts(b)
  {
    if a == [] {
      assert a + b == b;
    } else {
      assert (a + b)[1..] == a[1..] + b;
      WildPartsConcat(a[1..], b);
    }
  }

  ghost predicate OnlyWild(table: seq<Entry>) {
    forall t :: Lookup(table, t).Some?
                ==> var e := Lookup(table, t).value;
                    e.wild == (e.regex == ANYTHING) == (e.token == [60, 42, 62])
  }

  /** Every wildcard of the text counts until the budget is spent. */
  lemma {:induction false} ScanWild(table: seq<Entry>, t: Text, run: Text, wild: nat)
    requires HasTokens(table) && OnlyWild(table) && wild <= 64
    ensures WildParts(Scan(table, t, run, wild)) == Min(64 - wild, WildTokens(table, t))
    decreases |t|
  {
    match EntryAt(table, t, 0)
    case Some(e) =>
      var rest := Scan(table, t[|e.token|..], [], Spent(e, wild));
      ScanWild(table, t[|e.token|..], [], Spent(e, wild));
      WildPartsConcat(Run(run), [EntryPart(e, wild)] + rest);
      WildPartsConcat([EntryPart(e, wild)], rest);
    case None =>
      if t != [] {
        ScanWild(table, t[1..], run + [t[0]], wild);
      }
  }

  lemma FinderIsTame(k: Kind, r: Regex)
    requires r == Finder(k)
    ensures r != ANYTHING && Token(k) != [60, 42, 62]
  {
  }

  lemma MapOnlyWild()
    ensures OnlyWild(PlaceholderMap())
  {
    forall t | Lookup(PlaceholderMap(), t).Some?
      ensures var e := Lookup(PlaceholderMap(), t).value;
              e.wild == (e.regex == ANYTHING) == (e.token == [60, 42, 62])
    {
      LookupIsRow(PlaceholderMap(), t);
      var e := Lookup(PlaceholderMap(), t).value;
      if e != WILD_ENTRY {
        var k := KindOf(PlaceholderMap(), e);
        FinderIsTame(k, e.regex);
      }
    }
  }

  /** The first 64 wildcards of the first 4096 characters are compiled, and no more. */
  lemma WildcardsAreBudgeted(template: Text)
    requires template != []
    ensures HasTokens(PlaceholderMap()) && Compile(template).Joined?
    ensures WildParts(Compile(template).parts)
         == Min(64, WildTokens(PlaceholderMap(), template[..Min(4096, |template|)]))
  {
    MapHasTokens();
    MapOnlyWild();
    ScanWild(PlaceholderMap(), Truncated(template), [], 0);
    assert |template| <= 4096 ==> template[..|template|] == template;
  }

  lemma KindOf(table: seq<Entry>, e: Entry) returns (k: Kind)
    requires table == PlaceholderMap() && e in table && e != WILD_ENTRY
    ensures e == ValueEntry(k)
  {
    var i :| 0 <= i < |table| && table[i] == e;
    k := [Uuid, Ip, Id, Email, Timestamp, Hex, Hex][i];
  }

  lemma SeparatedIsContextFree(c: Unit, n: nat, rest: Regex)
    requires ContextFree(rest)
    ensures ContextFree(Cat(Char(One(c)), Cat(Times(Digit, n), rest)))
  {
    assert ContextFree(Times(Digit, n));
    assert ContextFree(Cat(Times(Digit, n), rest));
  }

  lemma InstantIsContextFree(rest: Regex)
    requires ContextFree(rest)
    ensures ContextFree(Instant(rest))
  {
    var seconds := Colon(Cat(Times(Digit, 2), rest));
    var minutes := Colon(Cat(Times(Digit, 2), seconds));
    var hours := Cat(Char(One(84)), Cat(Times(Digit, 2), minutes));
    var days := Dash(Cat(Times(Digit, 2), hours));
    SeparatedIsContextFree(58, 2, rest);
    SeparatedIsContextFree(58, 2, seconds);
    SeparatedIsContextFree(84, 2, minutes);
    SeparatedIsContextFree(45, 2, hours);
    SeparatedIsContextFree(45, 2, days);
    assert ContextFree(Times(Digit, 4));
  }

  lemma FinderIsContextFree(k: Kind, r: Regex)
    requires r == Finder(k)
    ensures ContextFree(r)
  {
    match k
    case Uuid => PlainUuid(true);
    case Timestamp => InstantIsContextFree(NON_SPACES);
    case Ip => assert ContextFree(Point(Cat(OCTET, Point(OCTET))));
    case _ =>
  }

  lemma MapHasTokens()
    ensures HasTokens(PlaceholderMap())
  {
    forall t | Lookup(PlaceholderMap(), t).Some? ensures IsToken(t) {
      LookupIsRow(PlaceholderMap(), t);
      var e := Lookup(PlaceholderMap(), t).value;
      RowShape(e, t, e.regex);
    }
  }

  function Compile(template: Text): Compiled {
    MapHasTokens();
    if template == [] then OnlyEmpty else Joined(Scan(PlaceholderMap(), Truncated(template), [], 0))
  }

  lemma {:induction false} EntryAtSuffix(table: seq<Entry>, text: Text, i: nat)
    requires i <= |text|
    ensures EntryAt(table, text[i..], 0) == EntryAt(table, text, i)
  {
    if table != [] {
      var token := table[0].token;
      if i + |token| <= |text| {
        assert text[i..][0..0 + |token|] == text[i..i + |token|];
      }
      EntryAtSuffix(table[1..], text, i);
    }
  }

  lemma NextCharacter(text: Text, last: nat, i: nat)
    requires last <= i < |text|
    ensures text[i..] != [] && text[i..][0] == text[i] && text[i..][1..] == text[i + 1..]
    ensures text[last..i] + [text[i]] == text[last..i + 1]
  {
  }

  lemma ScanCharacter(table: seq<Entry>, t: Text, run: Text, wild: nat)
    requires HasTokens(table) && t != [] && EntryAt(table, t, 0) == None
    ensures Scan(table, t, run, wild) == Scan(table, t[1..], run + [t[0]], wild)
  {
  }

  /** Skipping to the next placeholder is reading the characters before it. */
  lemma {:induction false} ScanSkips(table: seq<Entry>, text: Text, last: nat, i: nat, end: nat, wild: nat)
    requires HasTokens(table) && last <= i <= end <= |text|
    requires forall x: nat :: i <= x < end ==> EntryAt(table, text, x) == None
    ensures Scan(table, text[i..], text[last..i], wild) == Scan(table, text[end..], text[last..end], wild)
    decreases |text| - i
  {
    if i < end {
      EntryAtSuffix(table, text, i);
      ScanSkips(table, text, last, i + 1, end, wild);
      NextCharacter(text, last, i);
      ScanCharacter(table, text[i..], text[last..i], wild);
    }
  }

  /** One round of the compiler's loop: the gap, the part, and the rest. */
  lemma ScanAtToken(table: seq<Entry>, text: Text, last: nat, wild: nat, f: Found, next: nat, spent: nat)
    requires HasTokens(table) && last <= |text| && IsNext(table, text, last, f)
    requires next == f.index + |f.entry.token| <= |text| && spent == Spent(f.entry, wild)
    ensures Scan(table, text[last..], [], wild)
         == Run(text[last..f.index]) + ([EntryPart(f.entry, wild)] + Scan(table, text[next..], [], spent))
  {
    assert text[last..last] == [];
    ScanSkips(table, text, last, last, f.index, wild);
    EntryAtSuffix(table, text, f.index);
    assert text[f.index..][|f.entry.token|..] == text[next..];
  }

  lemma ScanAtEnd(table: seq<Entry>, text: Text, last: nat, wild: nat)
    requires HasTokens(table) && last <= |text|
    requires forall x: nat :: last <= x <= |text| ==> EntryAt(table, text, x) == None
    ensures Scan(table, text[last..], [], wild) == Run(text[last..])
  {
    assert text[last..last] == [];
    ScanSkips(table, text, last, last, |text|, wild);
    EntryAtSuffix(table, text, |text|);
    assert text[last..|text|] == text[last..];
  }

  method TemplateToRegex(template: Text) returns (compiled: Compiled)
    ensures compiled == Compile(template)
  {
    if |template| == 0 {
      return OnlyEmpty;
    }
    MapHasTokens();
    var parts := JoinParts(PlaceholderMap(), Truncated(template));
    compiled := Joined(parts);
  }

  /** One round of the loop: what is left to be scanned, and that with the new parts it
      makes up the whole. */
  lemma RoundKeeps(table: seq<Entry>, text: Text, last: nat, wild: nat, f: Found, parts: seq<Part>, rest: seq<Part>,
        next: nat, spent: nat)
    returns (left: seq<Part>)
    requires HasTokens(table) && last <= |text| && rest == Scan(table, text[last..], [], wild)
    requires NextToken(table, text, last) == Some(f) && last <= f.index && f.index + |f.entry.token| <= |text|
    requires next == f.index + |f.entry.token| && spent == Spent(f.entry, wild)
    ensures left == Scan(table, text[next..], [], spent)
    ensures ((parts + Run(text[last..f.index])) + [EntryPart(f.entry, wild)]) + left == parts + rest
  {
    NextTokenIs(table, text, last);
    ScanAtToken(table, text, last, wild, f, next, spent);
    left := Scan(table, text[next..], [], spent);
    Regroup(parts, Run(text[last..f.index]), EntryPart(f.entry, wild), left);
  }

  lemma FoundIsIn(table: seq<Entry>, text: Text, last: nat, f: Found)
    requires HasTokens(table) && last <= |text| && NextToken(table, text, last) == Some(f)
    ensures last <= f.index && f.index + |f.entry.token| <= |text| && |f.entry.token| > 0
  {
    NextTokenIs(table, text, last);
  }

  lemma ScanEnds(table: seq<Entry>, text: Text, last: nat, wild: nat)
    requires HasTokens(table) && last <= |text| && NextToken(table, text, last) == None
    ensures Scan(table, text[last..], [], wild) == Run(text[last..])
  {
    NextTokenIs(table, text, last);
    ScanAtEnd(table, text, last, wild);
  }

  lemma Regroup(parts: seq<Part>, run: seq<Part>, part: Part, rest: seq<Part>)
    ensures parts + (run + ([part] + rest)) == ((parts + run) + [part]) + rest
  {
  }

  /** The scanning loop of the compiler. */
  method JoinParts(table: seq<Entry>, text: Text) returns (parts: seq<Part>)
    requires HasTokens(table)
    ensures parts == Scan(table, text, [], 0)
  {
    parts := [];
    var lastIndex := 0;
    var wildcards := 0;
    assert text[0..] == text;
    ghost var all, rest := Scan(table, text, [], 0), Scan(table, text[lastIndex..], [], wildcards);
    var found := NextToken(table, text, lastIndex);
    while found.Some?
      invariant lastIndex <= |text| && parts + rest == all
      invariant rest == Scan(table, text[lastIndex..], [], wildcards)
      invariant found == NextToken(table, text, lastIndex)
      decreases |text| - lastIndex
    {
      var index, entry := found.value.index, found.value.entry;
      FoundIsIn(table, text, lastIndex, found.value);
      var next, spent := index + |entry.token|, Spent(entry, wildcards);
      rest := RoundKeeps(table, text, lastIndex, wildcards, found.value, parts, rest, next, spent);
      parts := parts + Run(text[lastIndex..index]);
      parts := parts + [EntryPart(entry, wildcards)];
      lastIndex, wildcards := next, spent;
      found := NextToken(table, text, lastIndex);
    }
    ScanEnds(table, text, lastIndex, wildcards);
    parts := parts + Run(text[lastIndex..]);
  }

  // -------------------------------------------------------------------- semantics

  function Verbatim(t: Text): Regex {
    if t == [] then Empty else Cat(Char(One(t[0])), Verbatim(t[1..]))
  }

  function PartRegex(p: Part): Regex {
    match p
    case Literal(source) => Verbatim(match ReadLiteral(source) case Some(t) => t case None => [])
    case Hole(regex) => regex
  }

  function RegexOf(parts: seq<Part>): Regex {
    if parts == [] then Empty else Cat(PartRegex(parts[0]), RegexOf(parts[1..]))
  }

  /** The compiled expression, tried at the start of `line`, can consume all of it. */
  predicate MatchesAllOf(compiled: Compiled, line: Text) {
    match compiled
    case OnlyEmpty => line == []
    case Joined(parts) => |line| in Ends(RegexOf(parts), line, 0, true)
  }

  /** A template matches a line whatever the case of its letters. */
  lemma CaseIsIgnored(compiled: Compiled, s: Text, t: Text)
    requires SameButCase(s, t) && MatchesAllOf(compiled, s)
    ensures MatchesAllOf(compiled, t)
  {
    if compiled.Joined? {
      var r := RegexOf(compiled.parts);
      EndsAreMatches(r, s, 0, |s|, true);
      MatchIgnoresCase(r, s, t, 0, |s|);
      EndsAreMatches(r, t, 0, |s|, true);
    }
  }
}
