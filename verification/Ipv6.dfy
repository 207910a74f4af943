/**
  Address texts (services/api/src/connectors/safe-fetch.ts): the expansion of an IPv6
  text to its eight hextets, against the spellings of sections 2.2 and 2.5.5 of
  RFC 4291.
*/
module Ipv6 {
  import opened Base
  import opened Internal

  // ------------------------------------------------------------- splitting and joining

  /** Splitting at one character. */
  function Split(s: string, c: char): (parts: seq<string>)
    ensures parts != []
  {
    if s == [] then [""]
    else
      var rest := Split(s[1..], c);
      if s[0] == c then [""] + rest else [[s[0]] + rest[0]] + rest[1..]
  }

  /** Splitting at each `::`, from the left. */
  function SplitDouble(s: string): (parts: seq<string>)
    ensures parts != []
  {
    if |s| < 2 then [s]
    else if s[0] == ':' && s[1] == ':' then [""] + SplitDouble(s[2..])
    else
      var rest := SplitDouble(s[1..]);
      [[s[0]] + rest[0]] + rest[1..]
  }

  function Join(groups: seq<string>): string {
    if groups == [] then ""
    else if |groups| == 1 then groups[0]
    else groups[0] + ":" + Join(groups[1..])
  }

  predicate Without(s: string, c: char) { s == [] || (s[0] != c && Without(s[1..], c)) }

  lemma {:induction false} SplitOne(a: string, c: char)
    requires Without(a, c)
    ensures Split(a, c) == [a]
  {
    if a != [] {
      SplitOne(a[1..], c);
      assert [a[0]] + a[1..] == a;
      assert Split(a, c) == [[a[0]] + a[1..]] + [];
    }
  }

  lemma {:induction false} SplitFirst(a: string, c: char, rest: string)
    requires Without(a, c)
    ensures Split(a + [c] + rest, c) == [a] + Split(rest, c)
  {
    var s := a + [c] + rest;
    if a == [] {
      assert s[1..] == rest;
    } else {
      assert s[1..] == a[1..] + [c] + rest;
      SplitFirst(a[1..], c, rest);
      assert [a[0]] + a[1..] == a;
      assert ([a[1..]] + Split(rest, c))[1..] == Split(rest, c);
    }
  }

  predicate Plain(groups: seq<string>) {
    groups == [] || (groups[0] != "" && Without(groups[0], ':') && Plain(groups[1..]))
  }

  lemma {:induction false} SplitJoin(groups: seq<string>)
    requires groups != [] && Plain(groups)
    ensures Split(Join(groups), ':') == groups && Join(groups) != ""
  {
    if |groups| == 1 {
      SplitOne(groups[0], ':');
    } else {
      SplitJoin(groups[1..]);
      SplitFirst(groups[0], ':', Join(groups[1..]));
    }
  }

  lemma {:induction false} JoinSnoc(groups: seq<string>, g: string)
    requires groups != []
    ensures Join(groups + [g]) == Join(groups) + ":" + g
  {
    assert (groups + [g])[1..] == groups[1..] + [g];
    if |groups| > 1 {
      JoinSnoc(groups[1..], g);
      assert groups[0] + ":" + (Join(groups[1..]) + ":" + g) == (groups[0] + ":" + Join(groups[1..])) + ":" + g;
    }
  }

  /** No `::` in it, and no colon at its end. */
  predicate Tight(s: string) {
    s == [] || (Tight(s[1..]) && (s[0] == ':' ==> |s| > 1 && s[1] != ':'))
  }

  lemma {:induction false} SplitTight(s: string)
    requires Tight(s)
    ensures SplitDouble(s) == [s]
  {
    if |s| >= 2 {
      SplitTight(s[1..]);
      assert [s[0]] + s[1..] == s;
      assert SplitDouble(s) == [[s[0]] + s[1..]] + [];
    }
  }

  lemma {:induction false} SplitAtDouble(a: string, b: string)
    requires Tight(a)
    ensures SplitDouble(a + "::" + b) == [a] + SplitDouble(b)
  {
    var s := a + "::" + b;
    if a == [] {
      assert s[2..] == b;
    } else {
      assert s[1..] == a[1..] + "::" + b;
      SplitAtDouble(a[1..], b);
      assert s[0] == a[0] && (|a| > 1 ==> s[1] == a[1]);
      assert [a[0]] + a[1..] == a;
      assert ([a[1..]] + SplitDouble(b))[1..] == SplitDouble(b);
    }
  }

  lemma {:induction false} TightGroup(g: string, rest: string)
    requires Without(g, ':') && Tight(rest) && (rest == "" || (rest[0] == ':' && |rest| > 1 && rest[1] != ':') )
    ensures Tight(g + rest)
  {
    if g == [] {
      assert g + rest == rest;
    } else {
      assert (g + rest)[1..] == g[1..] + rest;
      TightGroup(g[1..], rest);
    }
  }

  lemma {:induction false} JoinIsTight(groups: seq<string>)
    requires Plain(groups)
    ensures Tight(Join(groups)) && (groups != [] ==> Join(groups) != "" && Join(groups)[0] != ':')
  {
    if |groups| == 1 {
      assert groups[0] + "" == groups[0];
      TightGroup(groups[0], "");
    } else if |groups| > 1 {
      JoinIsTight(groups[1..]);
      var rest := ":" + Join(groups[1..]);
      assert rest[1..] == Join(groups[1..]);
      TightGroup(groups[0], rest);
      assert Join(groups) == groups[0] + rest;
    }
  }

  // --------------------------------------------------------------------- numbers

  /** The value of a digit of base 16, or 16. */
  function HexDigit(c: char): (d: nat)
    ensures d <= 16
  {
    if '0' <= c <= '9' then c as nat - '0' as nat
    else if 'a' <= c <= 'f' then c as nat - 'a' as nat + 10
    else if 'A' <= c <= 'F' then c as nat - 'A' as nat + 10
    else 16
  }

  predicate IsDecimal(c: char) { '0' <= c <= '9' }

  predicate IsSpace(c: char) {
    c == ' ' || '\t' <= c <= '\r' || c == '\U{A0}' || c == '\U{FEFF}' || c == '\U{1680}'
        || '\U{2000}' <= c <= '\U{200A}'
    || c == '\U{2028}' || c == '\U{2029}' || c == '\U{202F}' || c == '\U{205F}' || c == '\U{3000}'
  }

  function HexPrefix(t: string): string {
    if t == "" || HexDigit(t[0]) == 16 then "" else [t[0]] + HexPrefix(t[1..])
  }

  function HexValue(t: string): nat {
    if t == "" then 0 else HexValue(t[..|t| - 1]) * 16 + HexDigit(t[|t| - 1])
  }

  function DecimalValue(t: string): nat {
    if t == "" then 0
    else DecimalValue(t[..|t| - 1]) * 10 + if IsDecimal(t[|t| - 1]) then t[|t| - 1] as nat - '0' as nat else 0
  }

  predicate AllHex(t: string) { t == "" || (HexDigit(t[0]) < 16 && AllHex(t[1..])) }

  predicate AllDecimal(t: string) { t == "" || (IsDecimal(t[0]) && AllDecimal(t[1..])) }

  /** `parseInt(p, 16)`: spaces, a sign and `0x` may come first, and anything after the
      digits is ignored. */
  function ParseHex(p: string): Option<int> {
    if p != "" && IsSpace(p[0]) then ParseHex(p[1..])
    else
      var negative := p != "" && p[0] == '-';
      var t := if p != "" && (p[0] == '-' || p[0] == '+') then p[1..] else p;
      var u := if |t| >= 2 && t[0] == '0' && (t[1] == 'x' || t[1] == 'X') then t[2..] else t;
      var digits := HexPrefix(u);
      var value: int := HexValue(digits);
      if digits == "" then None else Some(if negative then -value else value)
  }

  lemma {:induction false} HexPrefixOfHex(t: string)
    requires AllHex(t)
    ensures HexPrefix(t) == t
  {
    if t != "" {
      HexPrefixOfHex(t[1..]);
    }
  }

  lemma ParseGroup(g: string)
    requires g != "" && AllHex(g)
    ensures ParseHex(g) == Some(HexValue(g))
  {
    HexPrefixOfHex(g);
    assert |g| > 1 ==> g[1] == g[1..][0] && HexDigit(g[1..][0]) < 16;
  }

  lemma {:induction false} HexIsBounded(g: string)
    requires AllHex(g) && |g| <= 4
    ensures HexValue(g) < [1, 16, 256, 4096, 65536][|g|]
    decreases |g|
  {
    if g != "" {
      AllHexInit(g);
      HexIsBounded(g[..|g| - 1]);
    }
  }

  lemma {:induction false} AllHexInit(g: string)
    requires AllHex(g) && g != ""
    ensures AllHex(g[..|g| - 1]) && HexDigit(g[|g| - 1]) < 16
    decreases |g|
  {
    if |g| > 1 {
      AllHexInit(g[1..]);
      assert g[1..][..|g| - 2] == g[..|g| - 1][1..];
    }
  }

  lemma {:induction false} AllHexSnoc(g: string, c: char)
    requires AllHex(g) && HexDigit(c) < 16
    ensures AllHex(g + [c])
  {
    if g != "" {
      assert (g + [c])[1..] == g[1..] + [c];
      AllHexSnoc(g[1..], c);
    }
  }

  lemma {:induction false} AllHexIsPlain(g: string)
    requires AllHex(g)
    ensures Without(g, ':') && Without(g, '.')
  {
    if g != "" {
      AllHexIsPlain(g[1..]);
    }
  }

  function HexChar(d: nat): char
    requires d < 16
  {
    "0123456789abcdef"[d]
  }

  /** `n.toString(16)`. */
  function Hex(n: nat): (t: string)
    ensures t != ""
  {
    if n < 16 then [HexChar(n)] else Hex(n / 16) + [HexChar(n % 16)]
  }

  lemma HexCharReadsBack(d: nat)
    requires d < 16
    ensures HexDigit(HexChar(d)) == d
  {
  }

  lemma {:induction false} HexReadsBack(n: nat)
    ensures HexValue(Hex(n)) == n && AllHex(Hex(n))
  {
    if n >= 16 {
      HexReadsBack(n / 16);
      HexCharReadsBack(n % 16);
      AllHexSnoc(Hex(n / 16), HexChar(n % 16));
      assert Hex(n)[..|Hex(n)| - 1] == Hex(n / 16);
    } else {
      HexCharReadsBack(n);
    }
  }

  // -------------------------------------------------------------------- expansion

  /** One past the last colon. */
  function AfterLastColon(s: string): (i: nat)
    ensures i <= |s| && (i > 0 ==> s[i - 1] == ':')
  {
    if s == "" then 0 else if s[|s| - 1] == ':' then |s| else AfterLastColon(s[..|s| - 1])
  }

  predicate IsOctetText(t: string) { 1 <= |t| <= 3 && AllDecimal(t) }

  predicate OneLine(s: string) {
    Without(s, '\n') && Without(s, '\r') && Without(s, '\U{2028}') && Without(s, '\U{2029}')
  }

  /** The octets of a dotted tail: the text has to end, behind a colon, in four groups
      of one to three decimals, and its part up to that colon be one line. */
  function DottedTail(s: string): (octets: seq<nat>)
    ensures octets == [] || |octets| == 4
  {
    var i := AfterLastColon(s);
    var parts := Split(s[i..], '.');
    if i == 0 || |parts| != 4 || !OneLine(s[..i - 1])
       || !(IsOctetText(parts[0]) && IsOctetText(parts[1]) && IsOctetText(parts[2]) && IsOctetText(parts[3])) then []
    else [DecimalValue(parts[0]), DecimalValue(parts[1]), DecimalValue(parts[2]), DecimalValue(parts[3])]
  }

  function Zeros(n: nat): seq<string> { if n == 0 then [] else Zeros(n - 1) + ["0"] }

  /** The numbers of the groups, an empty group counting as zero. */
  function Numbers(parts: seq<string>): Option<seq<nat>> {
    if parts == [] then Some([])
    else
      var n, rest := ParseHex(if parts[0] == "" then "0" else parts[0]), Numbers(parts[1..]);
      if n.None? || n.value < 0 || n.value > 0xffff || rest.None? then None else Some([n.value] + rest.value)
  }

  /** The numbers of the groups before and after a gap, filled up to eight. */
  function ExpandGroups(head: seq<string>, gap: bool, tail: seq<string>): Option<seq<nat>> {
    if gap && |head| + |tail| > 8 then None
    else
      var parts := if gap then head + Zeros(8 - |head| - |tail|) + tail else head;
      if |parts| != 8 then None else Numbers(parts)
  }

  function ExpandColons(s: string): Option<seq<nat>> {
    var halves := SplitDouble(s);
    if |halves| > 2 then None
    else
      var head := if halves[0] == "" then [] else Split(halves[0], ':');
      var tail := if |halves| == 2 && halves[1] != "" then Split(halves[1], ':') else [];
      ExpandGroups(head, |halves| == 2, tail)
  }

  /** Octets, if there are any, fold into two groups behind the last colon. */
  function ExpandFolded(s: string, colon: nat, octets: seq<nat>): Option<seq<nat>>
    requires colon <= |s| && (octets == [] || |octets| == 4)
  {
    if octets == [] then ExpandColons(s)
    else if octets[0] > 255 || octets[1] > 255 || octets[2] > 255 || octets[3] > 255 then None
    else ExpandColons(s[..colon] + (Hex(octets[0] * 256 + octets[1]) + ":" + Hex(octets[2] * 256 + octets[3])))
  }

  /** The eight hextets of a text, or nothing. */
  function Expand(s: string): Option<seq<nat>> { ExpandFolded(s, AfterLastColon(s), DottedTail(s)) }

  // -------------------------------------------------------------------- spellings

  /** A dotted-decimal tail. */
  datatype Quad = Quad(a: string, b: string, c: string, d: string)
  {
    function Text(): string { a + "." + b + "." + c + "." + d }

    predicate Legal() {
      && IsOctetText(a) && IsOctetText(b) && IsOctetText(c) && IsOctetText(d)
      && DecimalValue(a) <= 255 && DecimalValue(b) <= 255 && DecimalValue(c) <= 255 && DecimalValue(d) <= 255
    }

    function Hextets(): seq<nat> { [DecimalValue(a) * 256 + DecimalValue(b), DecimalValue(c) * 256 + DecimalValue(d)] }
  }

  /** A spelling of an address: groups, at most one `::` between `head` and `tail`, and
      perhaps a dotted tail behind the last group. */
  datatype Spelling = Spelling(head: seq<string>, gap: bool, tail: seq<string>, quad: Option<Quad>)
  {
    function End(): seq<string> { if quad.Some? then [quad.value.Text()] else [] }

    function Text(): string { if gap then Join(head) + "::" + Join(tail + End()) else Join(head + End()) }

    function Groups(): nat { |head| + |tail| + if quad.Some? then 2 else 0 }

    predicate Legal() {
      && Groups4(head) && Groups4(tail) && (quad.Some? ==> quad.value.Legal())
      && if gap then Groups() <= 8 else tail == [] && Groups() == 8
    }

    /** The address that it spells: each group its number, `::` as many zeros as are
        missing. */
    function Hextets(): seq<nat>
      requires Legal()
    {
      Values(head) + ZeroValues(8 - Groups()) + Values(tail) + if quad.Some? then quad.value.Hextets() else []
    }
  }

  /** Groups of one to four digits of base 16. */
  predicate Groups4(groups: seq<string>) {
    groups == [] || (1 <= |groups[0]| <= 4 && AllHex(groups[0]) && Groups4(groups[1..]))
  }

  function Values(groups: seq<string>): seq<nat> {
    if groups == [] then [] else [HexValue(groups[0])] + Values(groups[1..])
  }

  function ZeroValues(n: nat): seq<nat> { if n == 0 then [] else ZeroValues(n - 1) + [0] }

  lemma {:induction false} GroupsArePlain(groups: seq<string>)
    requires Groups4(groups)
    ensures Plain(groups)
  {
    if groups != [] {
      AllHexIsPlain(groups[0]);
      GroupsArePlain(groups[1..]);
    }
  }

  lemma {:induction false} NumbersOfGroups(groups: seq<string>)
    requires Groups4(groups)
    ensures Numbers(groups) == Some(Values(groups)) && |Values(groups)| == |groups|
  {
    if groups != [] {
      NumbersOfGroups(groups[1..]);
      ParseGroup(groups[0]);
      HexIsBounded(groups[0]);
    }
  }

  lemma {:induction false} NumbersConcat(a: seq<string>, b: seq<string>, x: seq<nat>, y: seq<nat>)
    requires Numbers(a) == Some(x) && Numbers(b) == Some(y)
    ensures Numbers(a + b) == Some(x + y)
  {
    if a == [] {
      assert a + b == b && x + y == y;
    } else {
      assert (a + b)[1..] == a[1..] + b;
      NumbersConcat(a[1..], b, Numbers(a[1..]).value, y);
      assert x == [x[0]] + Numbers(a[1..]).value;
      assert x + y == [x[0]] + (Numbers(a[1..]).value + y);
    }
  }

  lemma {:induction false} NumbersOfZeros(n: nat)
    ensures Numbers(Zeros(n)) == Some(ZeroValues(n)) && |Zeros(n)| == n
  {
    if n > 0 {
      NumbersOfZeros(n - 1);
      ParseGroup("0");
      OneZero();
      NumbersConcat(Zeros(n - 1), ["0"], ZeroValues(n - 1), [0]);
    }
  }

  lemma OneZero()
    ensures Numbers(["0"]) == Some([0])
  {
    var zero := "0";
    assert zero[..0] == "" && HexDigit(zero[0]) == 0;
    assert HexValue(zero) == 0;
    ParseGroup(zero);
    assert [zero][1..] == [] && [0] + [] == [0];
  }

  /** What the two halves of a text split into. */
  lemma HalvesOf(head: seq<string>, tail: seq<string>)
    requires Groups4(head) && Groups4(tail)
    ensures SplitDouble(Join(head)) == [Join(head)]
    ensures SplitDouble(Join(head) + "::" + Join(tail)) == [Join(head), Join(tail)]
  {
    GroupsArePlain(head);
    GroupsArePlain(tail);
    JoinIsTight(head);
    JoinIsTight(tail);
    SplitTight(Join(head));
    SplitTight(Join(tail));
    SplitAtDouble(Join(head), Join(tail));
  }

  /** A half splits into its groups. */
  lemma HalfOf(groups: seq<string>)
    requires Groups4(groups)
    ensures (if Join(groups) == "" then [] else Split(Join(groups), ':')) == groups
  {
    GroupsArePlain(groups);
    if groups != [] {
      SplitJoin(groups);
    }
  }

  lemma FullTextExpands(head: seq<string>)
    requires Groups4(head) && |head| == 8
    ensures ExpandColons(Join(head)) == Some(Values(head))
  {
    HalvesOf(head, []);
    HalfOf(head);
    NumbersOfGroups(head);
  }

  lemma GapTextExpands(head: seq<string>, tail: seq<string>)
    requires Groups4(head) && Groups4(tail) && |head| + |tail| <= 8
    ensures ExpandColons(Join(head) + "::" + Join(tail))
         == Some(Values(head) + ZeroValues(8 - |head| - |tail|) + Values(tail))
  {
    HalvesOf(head, tail);
    HalfOf(head);
    HalfOf(tail);
    GapExpands(head, tail);
  }

  /** Without a dotted tail, a legal text expands to what it spells. */
  lemma ColonsExpand(x: Spelling)
    requires x.Legal() && x.quad == None
    ensures ExpandColons(x.Text()) == Some(x.Hextets())
  {
    assert x.head + [] == x.head && x.tail + [] == x.tail;
    if x.gap {
      var all := Values(x.head) + ZeroValues(8 - |x.head| - |x.tail|) + Values(x.tail);
      assert all + [] == all;
      GapTextExpands(x.head, x.tail);
    } else {
      var all := Values(x.head);
      assert all + [] == all && ((all + []) + []) + [] == all;
      FullTextExpands(x.head);
    }
  }

  lemma GapExpands(head: seq<string>, tail: seq<string>)
    requires Groups4(head) && Groups4(tail) && |head| + |tail| <= 8
    ensures ExpandGroups(head, true, tail)
         == Some(Values(head) + ZeroValues(8 - |head| - |tail|) + Values(tail))
  {
    var missing := 8 - |head| - |tail|;
    NumbersOfZeros(missing);
    FilledNumbers(head, Zeros(missing), tail, ZeroValues(missing));
  }

  lemma FilledNumbers(head: seq<string>, zeros: seq<string>, tail: seq<string>, values: seq<nat>)
    requires Groups4(head) && Groups4(tail) && Numbers(zeros) == Some(values)
    ensures Numbers(head + zeros + tail) == Some(Values(head) + values + Values(tail))
  {
    NumbersOfGroups(head);
    NumbersOfGroups(tail);
    NumbersConcat(head, zeros, Values(head), values);
    NumbersConcat(head + zeros, tail, Values(head) + values, Values(tail));
  }

  // ---------------------------------------------------------------- the dotted tail

  lemma {:induction false} WithoutConcat(a: string, b: string, c: char)
    requires Without(a, c) && Without(b, c)
    ensures Without(a + b, c)
  {
    if a == [] {
      assert a + b == b;
    } else {
      assert (a + b)[1..] == a[1..] + b;
      WithoutConcat(a[1..], b, c);
    }
  }

  lemma {:induction false} WithoutSuffix(s: string, i: nat, c: char)
    requires Without(s, c) && i <= |s|
    ensures Without(s[i..], c)
  {
    if i > 0 {
      WithoutSuffix(s[1..], i - 1, c);
      assert s[1..][i - 1..] == s[i..];
    }
  }

  /** Letters of a text of groups: none but digits and colons. */
  lemma {:induction false} JoinWithout(groups: seq<string>, c: char)
    requires Groups4(groups) && c != ':' && HexDigit(c) == 16
    ensures Without(Join(groups), c)
  {
    if groups != [] {
      HexWithout(groups[0], c);
      if |groups| > 1 {
        JoinWithout(groups[1..], c);
        WithoutConcat(groups[0], ":", c);
        WithoutConcat(groups[0] + ":", Join(groups[1..]), c);
      }
    }
  }

  lemma {:induction false} HexWithout(g: string, c: char)
    requires AllHex(g) && HexDigit(c) == 16
    ensures Without(g, c)
  {
    if g != "" {
      HexWithout(g[1..], c);
    }
  }

  lemma NoDottedTail(s: string)
    requires Without(s, '.')
    ensures DottedTail(s) == []
  {
    WithoutSuffix(s, AfterLastColon(s), '.');
    SplitOne(s[AfterLastColon(s)..], '.');
  }

  lemma {:induction false} LastColonIs(a: string, b: string)
    requires (a == "" || a[|a| - 1] == ':') && Without(b, ':')
    ensures AfterLastColon(a + b) == |a|
    decreases |b|
  {
    if b == "" {
      assert a + b == a;
    } else {
      WithoutInit(b, ':');
      assert (a + b)[..|a + b| - 1] == a + b[..|b| - 1];
      LastColonIs(a, b[..|b| - 1]);
    }
  }

  lemma {:induction false} WithoutInit(b: string, c: char)
    requires b != "" && Without(b, c)
    ensures Without(b[..|b| - 1], c) && b[|b| - 1] != c
    decreases |b|
  {
    if |b| > 1 {
      WithoutInit(b[1..], c);
      assert b[1..][..|b| - 2] == b[..|b| - 1][1..];
    }
  }

  lemma {:induction false} DecimalWithout(t: string, c: char)
    requires AllDecimal(t) && !IsDecimal(c)
    ensures Without(t, c)
  {
    if t != "" {
      DecimalWithout(t[1..], c);
    }
  }

  lemma QuadSplits(q: Quad)
    requires q.Legal()
    ensures Split(q.Text(), '.') == [q.a, q.b, q.c, q.d] && Without(q.Text(), ':')
  {
    DecimalWithout(q.a, '.');
    DecimalWithout(q.b, '.');
    DecimalWithout(q.c, '.');
    DecimalWithout(q.d, '.');
    SplitOne(q.d, '.');
    SplitFirst(q.c, '.', q.d);
    SplitFirst(q.b, '.', q.c + "." + q.d);
    SplitFirst(q.a, '.', q.b + "." + (q.c + "." + q.d));
    assert q.Text() == q.a + "." + (q.b + "." + (q.c + "." + q.d));
    QuadWithoutColon(q);
  }

  lemma QuadWithoutColon(q: Quad)
    requires q.Legal()
    ensures Without(q.Text(), ':')
  {
    DecimalWithout(q.a, ':');
    DecimalWithout(q.b, ':');
    DecimalWithout(q.c, ':');
    DecimalWithout(q.d, ':');
    WithoutConcat(q.a, ".", ':');
    WithoutConcat(q.a + ".", q.b, ':');
    WithoutConcat(q.a + "." + q.b, ".", ':');
    WithoutConcat(q.a + "." + q.b + ".", q.c, ':');
    WithoutConcat(q.a + "." + q.b + "." + q.c, ".", ':');
    WithoutConcat(q.a + "." + q.b + "." + q.c + ".", q.d, ':');
  }

  lemma {:induction false} HexIsShort(n: nat)
    requires n < 0x1_0000
    ensures |Hex(n)| <= 4 && (n < 0x1000 ==> |Hex(n)| <= 3) && (n < 0x100 ==> |Hex(n)| <= 2)
            && (n < 16 ==> |Hex(n)| == 1)
    decreases n
  {
    if n >= 16 {
      HexIsShort(n / 16);
    }
  }

  lemma {:induction false} GroupsConcat(a: seq<string>, b: seq<string>)
    requires Groups4(a) && Groups4(b)
    ensures Groups4(a + b) && Values(a + b) == Values(a) + Values(b)
  {
    if a == [] {
      assert a + b == b;
    } else {
      assert (a + b)[1..] == a[1..] + b;
      GroupsConcat(a[1..], b);
      assert Values(a) + Values(b) == [HexValue(a[0])] + (Values(a[1..]) + Values(b));
    }
  }

  /** The two groups that a dotted tail is folded into. */
  function Folded(q: Quad): seq<string>
    requires q.Legal()
  {
    [Hex(q.Hextets()[0]), Hex(q.Hextets()[1])]
  }

  lemma FoldedAre(q: Quad)
    requires q.Legal()
    ensures Groups4(Folded(q)) && Values(Folded(q)) == q.Hextets()
  {
    TwoGroups(q.Hextets()[0], q.Hextets()[1]);
  }

  lemma TwoGroups(m: nat, n: nat)
    requires m < 0x1_0000 && n < 0x1_0000
    ensures Groups4([Hex(m), Hex(n)]) && Values([Hex(m), Hex(n)]) == [m, n]
  {
    HexGroup(m);
    HexGroup(n);
    GroupsConcat([Hex(m)], [Hex(n)]);
    assert [Hex(m)] + [Hex(n)] == [Hex(m), Hex(n)] && [m] + [n] == [m, n];
  }

  lemma HexGroup(n: nat)
    requires n < 0x1_0000
    ensures Groups4([Hex(n)]) && Values([Hex(n)]) == [n]
  {
    HexIsShort(n);
    HexReadsBack(n);
    OneGroup(Hex(n));
  }

  lemma OneGroup(g: string)
    requires 1 <= |g| <= 4 && AllHex(g)
    ensures Groups4([g]) && Values([g]) == [HexValue(g)]
  {
    assert [g][1..] == [];
    assert Values([]) == [] && [HexValue(g)] + [] == [HexValue(g)];
  }

  /** The spelling without the dotted tail. */
  function Undotted(x: Spelling): Spelling
    requires x.Legal() && x.quad.Some?
  {
    if x.gap then x.(tail := x.tail + Folded(x.quad.value), quad := None)
    else x.(head := x.head + Folded(x.quad.value), quad := None)
  }

  lemma UndottedIs(x: Spelling)
    requires x.Legal() && x.quad.Some?
    ensures Undotted(x).Legal() && Undotted(x).Hextets() == x.Hextets()
  {
    var q := x.quad.value;
    FoldedAre(q);
    GroupsConcat(if x.gap then x.tail else x.head, Folded(q));
    Regrouped(Values(x.head), ZeroValues(8 - x.Groups()), Values(x.tail), q.Hextets());
  }

  lemma Regrouped(head: seq<nat>, zeros: seq<nat>, tail: seq<nat>, last: seq<nat>)
    ensures head + zeros + (tail + last) + [] == head + zeros + tail + last
    ensures zeros == [] && tail == [] ==> (head + last) + zeros + tail + [] == head + zeros + tail + last
  {
  }

  /** What stands before the last of more groups. */
  function Stem(groups: seq<string>): string { if groups == [] then "" else Join(groups) + ":" }

  lemma StemJoin(groups: seq<string>, g: string, h: string)
    ensures Join(groups + [g]) == Stem(groups) + g
    ensures Join(groups + [g, h]) == Stem(groups) + (g + ":" + h)
  {
    assert groups + [g, h] == (groups + [g]) + [h];
    JoinSnoc(groups + [g], h);
    if groups != [] {
      JoinSnoc(groups, g);
    } else {
      assert [] + [g] == [g];
    }
    assert (Stem(groups) + g) + ":" + h == Stem(groups) + (g + ":" + h);
  }

  /** What stands before the dotted tail of a text, up to and with a colon. */
  function Before(x: Spelling): string {
    if x.gap then Join(x.head) + "::" + Stem(x.tail) else Stem(x.head)
  }

  /** The dotted text and the one without differ in what follows that colon. */
  lemma TextsAgree(x: Spelling)
    requires x.Legal() && x.quad.Some?
    ensures x.Text() == Before(x) + x.quad.value.Text()
    ensures Undotted(x).Text() == Before(x) + (Folded(x.quad.value)[0] + ":" + Folded(x.quad.value)[1])
  {
    var q, f := x.quad.value.Text(), Folded(x.quad.value);
    var list := if x.gap then x.tail else x.head;
    assert f == [f[0], f[1]] && (list + f) + [] == list + f;
    StemJoin(list, q, q);
    StemJoin(list, f[0], f[1]);
  }

  lemma BeforeIs(x: Spelling)
    requires x.Legal() && x.quad.Some?
    ensures Before(x) != "" && Before(x)[|Before(x)| - 1] == ':' && OneLine(Before(x)[..|Before(x)| - 1])
  {
    BeforeWithout(x, '\n');
    BeforeWithout(x, '\r');
    BeforeWithout(x, '\U{2028}');
    BeforeWithout(x, '\U{2029}');
  }

  lemma BeforeWithout(x: Spelling, c: char)
    requires x.Legal() && x.quad.Some? && c != ':' && HexDigit(c) == 16
    ensures Before(x) != "" && Before(x)[|Before(x)| - 1] == ':' && Without(Before(x)[..|Before(x)| - 1], c)
  {
    StemWithout(x.head, c);
    StemWithout(x.tail, c);
    JoinWithout(x.head, c);
    assert Without("::", c);
    WithoutConcat(Join(x.head), "::", c);
    WithoutConcat(Join(x.head) + "::", Stem(x.tail), c);
    WithoutInit(Before(x), c);
  }

  lemma StemWithout(groups: seq<string>, c: char)
    requires Groups4(groups) && c != ':' && HexDigit(c) == 16
    ensures Without(Stem(groups), c) && (Stem(groups) != "" ==> Stem(groups)[|Stem(groups)| - 1] == ':')
  {
    JoinWithout(groups, c);
    assert Without(":", c);
    WithoutConcat(Join(groups), ":", c);
  }

  lemma QuadIsFound(pre: string, text: string, q: Quad)
    requires pre != "" && pre[|pre| - 1] == ':' && OneLine(pre[..|pre| - 1])
    requires q.Legal() && Without(text, ':') && Split(text, '.') == [q.a, q.b, q.c, q.d]
    ensures DottedTail(pre + text) == [DecimalValue(q.a), DecimalValue(q.b), DecimalValue(q.c), DecimalValue(q.d)]
    ensures AfterLastColon(pre + text) == |pre|
  {
    LastColonIs(pre, text);
    assert (pre + text)[..|pre| - 1] == pre[..|pre| - 1] && (pre + text)[|pre|..] == text;
  }

  lemma FoldsQuad(pre: string, text: string, q: Quad)
    requires q.Legal()
    ensures ExpandFolded(pre + text, |pre|,
            [DecimalValue(q.a), DecimalValue(q.b), DecimalValue(q.c), DecimalValue(q.d)])
         == ExpandColons(pre + (Folded(q)[0] + ":" + Folded(q)[1]))
  {
    assert (pre + text)[..|pre|] == pre;
    OctetsFold(pre, pre + text, DecimalValue(q.a), DecimalValue(q.b), DecimalValue(q.c), DecimalValue(q.d));
  }

  lemma OctetsFold(pre: string, text: string, a: nat, b: nat, c: nat, d: nat)
    requires a <= 255 && b <= 255 && c <= 255 && d <= 255 && |pre| <= |text| && text[..|pre|] == pre
    ensures ExpandFolded(text, |pre|, [a, b, c, d])
         == ExpandColons(pre + (Hex(a * 256 + b) + ":" + Hex(c * 256 + d)))
  {
  }

  /** Every legal spelling of an address expands to the eight hextets that it spells. */
  lemma ExpandReadsSpelling(x: Spelling)
    requires x.Legal()
    ensures Expand(x.Text()) == Some(x.Hextets())
  {
    if x.quad.Some? {
      DottedExpands(x);
      UndottedIs(x);
      ColonsExpand(Undotted(x));
    } else {
      TextWithoutDot(x);
      NoDottedTail(x.Text());
      ColonsExpand(x);
    }
  }

  /** A dotted tail reads as the two groups in its place. */
  lemma DottedExpands(x: Spelling)
    requires x.Legal() && x.quad.Some?
    ensures Expand(x.Text()) == ExpandColons(Undotted(x).Text())
  {
    var pre, q := Before(x), x.quad.value;
    BeforeIs(x);
    QuadSplits(q);
    QuadIsFound(pre, q.Text(), q);
    FoldsQuad(pre, q.Text(), q);
    TextsAgree(x);
  }

  lemma TextWithoutDot(x: Spelling)
    requires x.Legal() && x.quad == None
    ensures Without(x.Text(), '.')
  {
    assert x.head + [] == x.head && x.tail + [] == x.tail;
    JoinWithout(x.head, '.');
    JoinWithout(x.tail, '.');
    assert Without("::", '.');
    WithoutConcat(Join(x.head), "::", '.');
    WithoutConcat(Join(x.head) + "::", Join(x.tail), '.');
  }

  // ---------------------------------------------------------------- the verdict

  /** The verdict on an address text; one that does not expand is internal. */
  function InternalIpv6(s: string): bool {
    var e := Expand(s);
    e.None? || |e.value| != 8 || InternalHextets(e.value)
  }

  /** Two spellings of one address get one verdict. */
  lemma VerdictIgnoresSpelling(x: Spelling, y: Spelling)
    requires x.Legal() && y.Legal() && x.Hextets() == y.Hextets()
    ensures InternalIpv6(x.Text()) == InternalIpv6(y.Text())
  {
    ExpandReadsSpelling(x);
    ExpandReadsSpelling(y);
  }

  predicate Short(values: seq<nat>) { forall v :: v in values ==> v <= 0xffff }

  lemma {:induction false} ValuesAreShort(groups: seq<string>)
    requires Groups4(groups)
    ensures Short(Values(groups)) && |Values(groups)| == |groups|
  {
    if groups != [] {
      HexIsBounded(groups[0]);
      ValuesAreShort(groups[1..]);
    }
  }

  lemma {:induction false} ZerosAreShort(n: nat)
    ensures Short(ZeroValues(n)) && |ZeroValues(n)| == n
  {
    if n > 0 {
      ZerosAreShort(n - 1);
    }
  }

  lemma HextetsAreShort(x: Spelling)
    requires x.Legal()
    ensures Short(x.Hextets()) && |x.Hextets()| == 8
  {
    ValuesAreShort(x.head);
    ValuesAreShort(x.tail);
    ZerosAreShort(8 - x.Groups());
    assert x.quad.Some? ==> Short(x.quad.value.Hextets());
  }

  /** The verdict on a legal spelling, by the ranges that its hextets may lie in. */
  lemma InternalIff(x: Spelling)
    requires x.Legal()
    ensures var h := x.Hextets();
            && |h| == 8
            && (InternalIpv6(x.Text())
                <==> if LeadZeros(h, 5) && h[5] == 0xffff then InternalIpv4(h[6] / 256, h[6] % 256)
                     else if LeadZeros(h, 6) then (h[6] == 0 && h[7] <= 1) || InternalIpv4(h[6] / 256, h[6] % 256)
                     else 0xfc00 <= h[0] <= 0xfdff || 0xfe80 <= h[0] <= 0xfebf || 0xff00 <= h[0])
  {
    ExpandReadsSpelling(x);
    HextetsAreShort(x);
    var h := x.Hextets();
    assert forall i :: 0 <= i < 8 ==> h[i] in h;
    HextetsInternalIff(h);
  }

  /** A mapped address, however spelt, gets the verdict of the IPv4 address in it. */
  lemma MappedIsJudgedAsIpv4(x: Spelling, a: nat, b: nat, c: nat, d: nat)
    requires x.Legal() && a <= 255 && b <= 255 && c <= 255 && d <= 255
    requires x.Hextets() == [0, 0, 0, 0, 0, 0xffff, a * 256 + b, c * 256 + d]
    ensures InternalIpv6(x.Text()) == InternalIpv4(a, b)
  {
    ExpandReadsSpelling(x);
    MappedHextets(x.Hextets(), a, b);
  }

  lemma MappedHextets(h: seq<nat>, a: nat, b: nat)
    requires |h| == 8 && h[0] == h[1] == h[2] == h[3] == h[4] == 0 && h[5] == 0xffff && h[6] == a * 256 + b && b <= 255
    ensures InternalHextets(h) == InternalIpv4(a, b)
  {
    Division(h[6], 256, a, b);
  }
}
