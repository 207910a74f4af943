/**
  The fragment of JavaScript regular expressions that the ingest pipeline and
  the drill-down connectors use.

  A string is a sequence of UTF-16 code units. `Ends` is the backtracking
  matcher: it lists every position at which a match starting at `i` can end, in
  the order in which the engine tries them, so its first entry is the end the
  engine reports. `Matches` is the declarative reading of the same expression.
*/
module Regex {

  newtype Unit = u: int | 0 <= u < 0x10000

  type Text = seq<Unit>

  const LESS: Unit := 60     // <
  const GREATER: Unit := 62  // >
  const STAR: Unit := 42     // *

  /** One character of a pattern. The lettered classes stand for the class
      under the `i` flag, which every expression containing them carries. */
  datatype CharClass =
    | One(c: Unit)
    | Digit      // \d
    | HexDigit   // [0-9a-f] with i, or [0-9a-fA-F]
    | Letter     // [a-z] with i
    | LocalPart  // [a-z0-9._%+-] with i
    | Domain     // [a-z0-9.-] with i
    | Sign       // [+-]
    | NotSpace   // [^ ]
    | Dot        // . (anything but a line terminator)

  datatype Bound = AtMost(n: nat) | Unbounded

  datatype Regex =
    | Empty
    | Char(k: CharClass)
    | Edge                       // \b
    | Cat(first: Regex, second: Regex)
    | Either(left: Regex, right: Regex)
    | Repeat(body: Regex, min: nat, max: Bound, greedy: bool)

  predicate IsDigit(c: Unit) { 48 <= c <= 57 }

  predicate IsLetter(c: Unit) { 65 <= c <= 90 || 97 <= c <= 122 }

  /** \w, which the i flag does not widen for non-Unicode expressions. */
  predicate IsWord(c: Unit) { IsDigit(c) || IsLetter(c) || c == 95 }

  function Fold(c: Unit): Unit { if 97 <= c <= 122 then c - 32 else c }

  predicate In(k: CharClass, c: Unit, ignoreCase: bool) {
    match k
    case One(x) => c == x || (ignoreCase && Fold(c) == Fold(x))
    case Digit => IsDigit(c)
    case HexDigit => IsDigit(c) || 65 <= c <= 70 || 97 <= c <= 102
    case Letter => IsLetter(c)
    case LocalPart => IsDigit(c) || IsLetter(c) || c in [46, 95, 37, 43, 45]
    case Domain => IsDigit(c) || IsLetter(c) || c == 46 || c == 45
    case Sign => c == 43 || c == 45
    case NotSpace => c != 32
    case Dot => c !in [10, 13, 0x2028, 0x2029]
  }

  predicate WordAt(s: Text, i: int) { 0 <= i < |s| && IsWord(s[i]) }

  predicate IsEdge(s: Text, i: int) { WordAt(s, i - 1) != WordAt(s, i) }

  function Dec(max: Bound): Bound {
    if max.AtMost? && max.n > 0 then AtMost(max.n - 1) else max
  }

  function Pred(n: nat): nat { if n == 0 then 0 else n - 1 }

  predicate Within(es: seq<nat>, lo: int, hi: int) {
    forall k :: 0 <= k < |es| ==> lo <= es[k] <= hi
  }

  // ---------------------------------------------------------------- matcher

  /** Ends of the matches of `r` at `i`, in the order the engine tries them. */
  function Ends(r: Regex, s: Text, i: nat, ic: bool): (es: seq<nat>)
    requires i <= |s|
    ensures Within(es, i, |s|)
    decreases r, 0, 0, 0, 0
  {
    match r
    case Empty => [i]
    case Char(k) => if i < |s| && In(k, s[i], ic) then [i + 1] else []
    case Edge => if IsEdge(s, i) then [i] else []
    case Cat(a, b) => EndsAll(b, s, i, Ends(a, s, i, ic), ic)
    case Either(a, b) => Ends(a, s, i, ic) + Ends(b, s, i, ic)
    case Repeat(b, min, max, greedy) => RepeatEnds(b, min, max, greedy, s, i, ic)
  }

  function EndsAll(r: Regex, s: Text, lo: nat, starts: seq<nat>, ic: bool): (es: seq<nat>)
    requires Within(starts, lo, |s|)
    ensures Within(es, lo, |s|)
    decreases r, 1, 0, 0, |starts|
  {
    if starts == [] then [] else Ends(r, s, starts[0], ic) + EndsAll(r, s, lo, starts[1..], ic)
  }

  /** Where the next iteration of a repeat may start: once `min` copies are
      taken, an iteration that consumes nothing is refused. */
  function Starts(r: Regex, min: nat, s: Text, i: nat, ic: bool): (es: seq<nat>)
    requires i <= |s|
    ensures Within(es, if min > 0 then i else i + 1, |s|)
    decreases r, 1, 0, 0, 0
  {
    if min > 0 then Ends(r, s, i, ic) else Progress(Ends(r, s, i, ic), i, |s|)
  }

  function RepeatEnds(r: Regex, min: nat, max: Bound, greedy: bool, s: Text, i: nat, ic: bool): (es: seq<nat>)
    requires i <= |s|
    ensures Within(es, i, |s|)
    decreases r, 2, min, |s| - i, 0
  {
    if max == AtMost(0) then (if min == 0 then [i] else [])
    else if min > 0 then RepeatAll(r, min - 1, Dec(max), greedy, s, i, Starts(r, min, s, i, ic), ic)
    else
      var more := if i == |s| then []
                  else RepeatAll(r, 0, Dec(max), greedy, s, i + 1, Starts(r, min, s, i, ic), ic);
      if greedy then more + [i] else [i] + more
  }

  function RepeatAll(r: Regex, min: nat, max: Bound, greedy: bool, s: Text, lo: nat, starts: seq<nat>,
        ic: bool): (es: seq<nat>)
    requires lo <= |s|
    requires Within(starts, lo, |s|)
    ensures Within(es, lo, |s|)
    decreases r, 2, min, |s| - lo, |starts| + 1
  {
    if starts == [] then []
    else RepeatEnds(r, min, max, greedy, s, starts[0], ic) + RepeatAll(r, min, max, greedy, s, lo, starts[1..], ic)
  }

  function Progress(es: seq<nat>, i: nat, hi: nat): (ps: seq<nat>)
    requires Within(es, i, hi)
    ensures Within(ps, i + 1, hi)
  {
    if es == [] then [] else (if es[0] > i then [es[0]] else []) + Progress(es[1..], i, hi)
  }

  lemma {:induction false} InProgress(es: seq<nat>, i: nat, hi: nat, e: nat)
    requires Within(es, i, hi)
    ensures e in Progress(es, i, hi) <==> e in es && e > i
  {
    if es != [] {
      InProgress(es[1..], i, hi, e);
    }
  }

  // ------------------------------------------------------------- semantics

  predicate Between(i: int, e: int, j: int) { i <= e <= j }

  /** Declarative meaning: `r` matches exactly `s[i..j]`, in the context of `s`. */
  ghost predicate Matches(r: Regex, s: Text, i: nat, j: nat, ic: bool)
    requires i <= j <= |s|
    decreases r, 0, 0, 0
  {
    match r
    case Empty => i == j
    case Char(k) => j == i + 1 && In(k, s[i], ic)
    case Edge => i == j && IsEdge(s, i)
    case Cat(a, b) =>
      exists e: nat {:trigger Between(i, e, j)} ::
        Between(i, e, j) && Matches(a, s, i, e, ic) && Matches(b, s, e, j, ic)
    case Either(a, b) => Matches(a, s, i, j, ic) || Matches(b, s, i, j, ic)
    case Repeat(b, min, max, _) => Copies(b, min, max, s, i, j, ic)
  }

  ghost predicate Copies(r: Regex, min: nat, max: Bound, s: Text, i: nat, j: nat, ic: bool)
    requires i <= j <= |s|
    decreases r, 1, min, j - i
  {
    || (min == 0 && i == j)
    || (max != AtMost(0) &&
        exists e: nat {:trigger Between(i, e, j)} ::
          && Between(i, e, j) && (min > 0 || e > i) && Matches(r, s, i, e, ic)
          && Copies(r, Pred(min), Dec(max), s, e, j, ic))
  }

  /** The backtracking matcher finds exactly the declarative matches. */
  lemma {:induction false} EndsAreMatches(r: Regex, s: Text, i: nat, j: nat, ic: bool)
    requires i <= j <= |s|
    ensures j in Ends(r, s, i, ic) <==> Matches(r, s, i, j, ic)
    decreases r, 0, 0, 0
  {
    match r
    case Empty =>
    case Char(_) =>
    case Edge =>
    case Either(a, b) =>
      EndsAreMatches(a, s, i, j, ic);
      EndsAreMatches(b, s, i, j, ic);
    case Cat(a, b) =>
      var mid := Ends(a, s, i, ic);
      InEndsAll(b, s, i, mid, ic, j);
      forall e: nat | i <= e <= j
        ensures e in mid <==> Matches(a, s, i, e, ic)
        ensures j in Ends(b, s, e, ic) <==> Matches(b, s, e, j, ic)
      {
        EndsAreMatches(a, s, i, e, ic);
        EndsAreMatches(b, s, e, j, ic);
      }
      if Matches(r, s, i, j, ic) {
        var e: nat :| Between(i, e, j) && Matches(a, s, i, e, ic) && Matches(b, s, e, j, ic);
        var k :| 0 <= k < |mid| && mid[k] == e;
      }
      if k :| 0 <= k < |mid| && j in Ends(b, s, mid[k], ic) {
        assert mid[k] in mid;
        assert Between(i, mid[k], j);
      }
    case Repeat(b, min, max, greedy) => RepeatEndsAreCopies(b, min, max, greedy, s, i, j, ic);
  }

  lemma {:induction false} InEndsAll(r: Regex, s: Text, lo: nat, starts: seq<nat>, ic: bool, j: nat)
    requires Within(starts, lo, |s|)
    ensures j in EndsAll(r, s, lo, starts, ic)
       <==> exists k :: 0 <= k < |starts| && j in Ends(r, s, starts[k], ic)
  {
    if starts != [] {
      InEndsAll(r, s, lo, starts[1..], ic, j);
      if k :| 0 <= k < |starts| && j in Ends(r, s, starts[k], ic) {
        assert k == 0 || starts[k] == starts[1..][k - 1];
      }
      if k :| 0 <= k < |starts[1..]| && j in Ends(r, s, starts[1..][k], ic) {
        assert starts[k + 1] == starts[1..][k];
      }
    }
  }

  /** Some start in `starts` leads a repeat to `j`. */
  ghost predicate Leads(r: Regex, min: nat, max: Bound, greedy: bool, s: Text, starts: seq<nat>, ic: bool, j: nat)
    requires Within(starts, 0, |s|)
  {
    exists k :: 0 <= k < |starts| && j in RepeatEnds(r, min, max, greedy, s, starts[k], ic)
  }

  lemma {:induction false} InRepeatAll(r: Regex, min: nat, max: Bound, greedy: bool, s: Text, lo: nat,
        starts: seq<nat>, ic: bool, j: nat)
    requires lo <= |s|
    requires Within(starts, lo, |s|)
    ensures j in RepeatAll(r, min, max, greedy, s, lo, starts, ic) <==> Leads(r, min, max, greedy, s, starts, ic, j)
  {
    if starts != [] {
      InRepeatAll(r, min, max, greedy, s, lo, starts[1..], ic, j);
      if k :| 0 <= k < |starts| && j in RepeatEnds(r, min, max, greedy, s, starts[k], ic) {
        assert k == 0 || starts[k] == starts[1..][k - 1];
      }
      if k :| 0 <= k < |starts[1..]| && j in RepeatEnds(r, min, max, greedy, s, starts[1..][k], ic) {
        assert starts[k + 1] == starts[1..][k];
      }
    }
  }

  lemma {:induction false} RepeatUnfold(r: Regex, min: nat, max: Bound, greedy: bool, s: Text, i: nat, ic: bool, j: nat)
    requires i <= |s| && max != AtMost(0)
    ensures j in RepeatEnds(r, min, max, greedy, s, i, ic)
       <==> (min == 0 && j == i) || Leads(r, Pred(min), Dec(max), greedy, s, Starts(r, min, s, i, ic), ic, j)
  {
    var starts := Starts(r, min, s, i, ic);
    if min > 0 || i < |s| {
      InRepeatAll(r, Pred(min), Dec(max), greedy, s, if min > 0 then i else i + 1, starts, ic, j);
    }
  }

  lemma {:induction false} RepeatEndsAreCopies(r: Regex, min: nat, max: Bound, greedy: bool, s: Text, i: nat, j: nat,
        ic: bool)
    requires i <= j <= |s|
    ensures j in RepeatEnds(r, min, max, greedy, s, i, ic) <==> Copies(r, min, max, s, i, j, ic)
    decreases r, 1, min, j - i, 3
  {
    if max != AtMost(0) && !(min == 0 && i == j) {
      RepeatUnfold(r, min, max, greedy, s, i, ic, j);
      LeadsAreCopies(r, min, max, greedy, s, i, j, ic);
    } else if max != AtMost(0) {
      RepeatUnfold(r, min, max, greedy, s, i, ic, j);
    }
  }

  lemma {:induction false} LeadsAreCopies(r: Regex, min: nat, max: Bound, greedy: bool, s: Text, i: nat, j: nat,
        ic: bool)
    requires i <= j <= |s| && max != AtMost(0) && !(min == 0 && i == j)
    ensures Leads(r, Pred(min), Dec(max), greedy, s, Starts(r, min, s, i, ic), ic, j)
            <==> Copies(r, min, max, s, i, j, ic)
    decreases r, 1, min, j - i, 2
  {
    if Leads(r, Pred(min), Dec(max), greedy, s, Starts(r, min, s, i, ic), ic, j) {
      LeadsToCopies(r, min, max, greedy, s, i, j, ic);
    }
    if Copies(r, min, max, s, i, j, ic) {
      CopiesLead(r, min, max, greedy, s, i, j, ic);
    }
  }

  lemma {:induction false} LeadsToCopies(r: Regex, min: nat, max: Bound, greedy: bool, s: Text, i: nat, j: nat,
        ic: bool)
    requires i <= j <= |s| && max != AtMost(0) && !(min == 0 && i == j)
    requires Leads(r, Pred(min), Dec(max), greedy, s, Starts(r, min, s, i, ic), ic, j)
    ensures Copies(r, min, max, s, i, j, ic)
    decreases r, 1, min, j - i, 1
  {
    var starts := Starts(r, min, s, i, ic);
    var k :| 0 <= k < |starts| && j in RepeatEnds(r, Pred(min), Dec(max), greedy, s, starts[k], ic);
    var e := starts[k];
    RepeatStep(r, min, max, greedy, s, i, e, j, ic);
    assert e in starts;
    assert Between(i, e, j);
  }

  lemma {:induction false} CopiesLead(r: Regex, min: nat, max: Bound, greedy: bool, s: Text, i: nat, j: nat, ic: bool)
    requires i <= j <= |s| && max != AtMost(0) && !(min == 0 && i == j)
    requires Copies(r, min, max, s, i, j, ic)
    ensures Leads(r, Pred(min), Dec(max), greedy, s, Starts(r, min, s, i, ic), ic, j)
    decreases r, 1, min, j - i, 1
  {
    var starts := Starts(r, min, s, i, ic);
    var e: nat :| Between(i, e, j) && (min > 0 || e > i) && Matches(r, s, i, e, ic) &&
                  Copies(r, Pred(min), Dec(max), s, e, j, ic);
    RepeatStep(r, min, max, greedy, s, i, e, j, ic);
    var k :| 0 <= k < |starts| && starts[k] == e;
  }

  lemma {:induction false} RepeatStep(r: Regex, min: nat, max: Bound, greedy: bool, s: Text, i: nat, e: nat, j: nat,
        ic: bool)
    requires i <= e <= j <= |s| && (min > 0 || e > i)
    ensures Matches(r, s, i, e, ic) <==> e in Starts(r, min, s, i, ic)
    ensures j in RepeatEnds(r, Pred(min), Dec(max), greedy, s, e, ic) <==> Copies(r, Pred(min), Dec(max), s, e, j, ic)
    decreases r, 1, min, if min > 0 then j - i else j - e, if min > 0 then 0 else 4
  {
    EndsAreMatches(r, s, i, e, ic);
    InProgress(Ends(r, s, i, ic), i, |s|, e);
    RepeatEndsAreCopies(r, Pred(min), Dec(max), greedy, s, e, j, ic);
  }
}
