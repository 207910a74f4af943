/**
  Facts about matches that can be read off the expression: their length, the
  characters they consume, how they begin and end, and that a match can be moved
  to another text with the same window and the same neighbouring word characters.
*/
module RegexFacts {
  import opened Regex

  // ------------------------------------------------------- reading an expression

  predicate ContextFree(r: Regex) {
    match r
    case Edge => false
    case Cat(a, b) => ContextFree(a) && ContextFree(b)
    case Either(a, b) => ContextFree(a) && ContextFree(b)
    case Repeat(b, _, _, _) => ContextFree(b)
    case _ => true
  }

  function MinLength(r: Regex): nat {
    match r
    case Empty => 0
    case Char(_) => 1
    case Edge => 0
    case Cat(a, b) => MinLength(a) + MinLength(b)
    case Either(a, b) => if MinLength(a) < MinLength(b) then MinLength(a) else MinLength(b)
    case Repeat(b, min, _, _) => min * MinLength(b)
  }

  /** Every character that `r` can consume satisfies `ok`. */
  ghost predicate Over(r: Regex, ok: Unit -> bool, ic: bool) {
    match r
    case Char(k) => forall c :: In(k, c, ic) ==> ok(c)
    case Cat(a, b) => Over(a, ok, ic) && Over(b, ok, ic)
    case Either(a, b) => Over(a, ok, ic) && Over(b, ok, ic)
    case Repeat(b, _, _, _) => Over(b, ok, ic)
    case _ => true
  }

  /** Every match of `r` is non-empty and begins with a word character. */
  ghost predicate BeginsWithWord(r: Regex, ic: bool) {
    match r
    case Char(k) => forall c :: In(k, c, ic) ==> IsWord(c)
    case Cat(a, b) => BeginsWithWord(a, ic)
    case Repeat(b, min, _, _) => min > 0 && BeginsWithWord(b, ic)
    case _ => false
  }

  ghost predicate EndsWithWord(r: Regex, ic: bool) {
    match r
    case Char(k) => forall c :: In(k, c, ic) ==> IsWord(c)
    case Cat(a, b) => EndsWithWord(b, ic)
    case Repeat(b, min, _, _) => min > 0 && EndsWithWord(b, ic)
    case _ => false
  }

  /** `\b body \b` around a body that begins and ends with word characters. */
  ghost predicate Edged(r: Regex, ic: bool) {
    && r.Cat? && r.first == Edge && r.second.Cat? && r.second.second == Edge
    && ContextFree(r.second.first)
    && BeginsWithWord(r.second.first, ic)
    && EndsWithWord(r.second.first, ic)
  }

  // ------------------------------------------------------------------- soundness

  lemma {:induction false} MatchLength(r: Regex, s: Text, i: nat, j: nat, ic: bool)
    requires i <= j <= |s| && Matches(r, s, i, j, ic)
    ensures j - i >= MinLength(r)
    decreases r, 0, 0
  {
    match r
    case Cat(a, b) =>
      var e: nat :| Between(i, e, j) && Matches(a, s, i, e, ic) && Matches(b, s, e, j, ic);
      MatchLength(a, s, i, e, ic);
      MatchLength(b, s, e, j, ic);
    case Either(a, b) =>
      if Matches(a, s, i, j, ic) { MatchLength(a, s, i, j, ic); } else { MatchLength(b, s, i, j, ic); }
    case Repeat(b, min, max, _) => CopiesLength(b, min, max, s, i, j, ic);
    case _ =>
  }

  lemma {:induction false} CopiesLength(r: Regex, min: nat, max: Bound, s: Text, i: nat, j: nat, ic: bool)
    requires i <= j <= |s| && Copies(r, min, max, s, i, j, ic)
    ensures j - i >= min * MinLength(r)
    decreases r, 1, min
  {
    if min > 0 {
      var e: nat :| Between(i, e, j) && Matches(r, s, i, e, ic) && Copies(r, Pred(min), Dec(max), s, e, j, ic);
      MatchLength(r, s, i, e, ic);
      CopiesLength(r, min - 1, Dec(max), s, e, j, ic);
      OneCopyMore(min, MinLength(r));
    }
  }

  lemma OneCopyMore(n: nat, length: nat)
    requires n > 0
    ensures n * length == length + (n - 1) * length
  {
  }

  lemma {:induction false} MatchIsOver(r: Regex, ok: Unit -> bool, s: Text, i: nat, j: nat, ic: bool)
    requires i <= j <= |s| && Matches(r, s, i, j, ic) && Over(r, ok, ic)
    ensures forall k :: i <= k < j ==> ok(s[k])
    decreases r, 0, 0, 0
  {
    match r
    case Cat(a, b) =>
      var e: nat :| Between(i, e, j) && Matches(a, s, i, e, ic) && Matches(b, s, e, j, ic);
      MatchIsOver(a, ok, s, i, e, ic);
      MatchIsOver(b, ok, s, e, j, ic);
    case Either(a, b) =>
      if Matches(a, s, i, j, ic) { MatchIsOver(a, ok, s, i, j, ic); } else { MatchIsOver(b, ok, s, i, j, ic); }
    case Repeat(b, min, max, _) => CopiesAreOver(b, min, max, ok, s, i, j, ic);
    case _ =>
  }

  lemma {:induction false} CopiesAreOver(r: Regex, min: nat, max: Bound, ok: Unit -> bool, s: Text, i: nat, j: nat,
        ic: bool)
    requires i <= j <= |s| && Copies(r, min, max, s, i, j, ic) && Over(r, ok, ic)
    ensures forall k :: i <= k < j ==> ok(s[k])
    decreases r, 1, min, j - i
  {
    if i < j {
      var e: nat :| Between(i, e, j) && (min > 0 || e > i) && Matches(r, s, i, e, ic) &&
                    Copies(r, Pred(min), Dec(max), s, e, j, ic);
      MatchIsOver(r, ok, s, i, e, ic);
      CopiesAreOver(r, Pred(min), Dec(max), ok, s, e, j, ic);
    }
  }

  lemma {:induction false} MatchBeginsWithWord(r: Regex, s: Text, i: nat, j: nat, ic: bool)
    requires i <= j <= |s| && Matches(r, s, i, j, ic) && BeginsWithWord(r, ic)
    ensures i < j && IsWord(s[i])
  {
    match r
    case Char(_) =>
    case Cat(a, b) =>
      var e: nat :| Between(i, e, j) && Matches(a, s, i, e, ic) && Matches(b, s, e, j, ic);
      MatchBeginsWithWord(a, s, i, e, ic);
    case Repeat(b, min, max, _) =>
      var e: nat :| Between(i, e, j) && Matches(b, s, i, e, ic) && Copies(b, Pred(min), Dec(max), s, e, j, ic);
      MatchBeginsWithWord(b, s, i, e, ic);
  }

  lemma {:induction false} MatchEndsWithWord(r: Regex, s: Text, i: nat, j: nat, ic: bool)
    requires i <= j <= |s| && Matches(r, s, i, j, ic) && EndsWithWord(r, ic)
    ensures i < j && IsWord(s[j - 1])
    decreases r, 0, 0, 0
  {
    match r
    case Char(_) =>
    case Cat(a, b) =>
      var e: nat :| Between(i, e, j) && Matches(a, s, i, e, ic) && Matches(b, s, e, j, ic);
      MatchEndsWithWord(b, s, e, j, ic);
    case Repeat(b, min, max, _) => CopiesEndWithWord(b, min, max, s, i, j, ic);
  }

  lemma {:induction false} CopiesEndWithWord(r: Regex, min: nat, max: Bound, s: Text, i: nat, j: nat, ic: bool)
    requires i <= j <= |s| && Copies(r, min, max, s, i, j, ic) && EndsWithWord(r, ic)
    requires min > 0 || i < j
    ensures i < j && IsWord(s[j - 1])
    decreases r, 1, min, j - i
  {
    var e: nat :| Between(i, e, j) && (min > 0 || e > i) && Matches(r, s, i, e, ic) &&
                  Copies(r, Pred(min), Dec(max), s, e, j, ic);
    MatchEndsWithWord(r, s, i, e, ic);
    if e < j {
      CopiesEndWithWord(r, Pred(min), Dec(max), s, e, j, ic);
    }
  }

  /** The windows agree, and so do the word characters beside them when `r` can see them. */
  ghost predicate SameView(r: Regex, s: Text, i: nat, j: nat, t: Text, x: nat, y: nat)
    requires i <= j <= |s| && x <= y <= |t|
  {
    && s[i..j] == t[x..y]
    && (ContextFree(r) || (WordAt(s, i - 1) == WordAt(t, x - 1) && WordAt(s, j) == WordAt(t, y)))
  }

  /** A match moves to any text that shows it the same view. */
  lemma {:induction false} Transfer(r: Regex, s: Text, i: nat, j: nat, t: Text, x: nat, y: nat, ic: bool)
    requires i <= j <= |s| && x <= y <= |t|
    requires SameView(r, s, i, j, t, x, y) && j - i == y - x
    requires Matches(r, s, i, j, ic)
    ensures Matches(r, t, x, y, ic)
    decreases r, 0, 0, 0
  {
    match r
    case Empty =>
    case Char(_) => assert s[i..j][0] == t[x..y][0];
    case Edge =>
    case Cat(a, b) =>
      var e: nat :| Between(i, e, j) && Matches(a, s, i, e, ic) && Matches(b, s, e, j, ic);
      var f := x + (e - i);
      SplitView(r, a, b, s, i, e, j, t, x, y);
      Transfer(a, s, i, e, t, x, f, ic);
      Transfer(b, s, e, j, t, f, y, ic);
      assert Between(x, f, y);
    case Either(a, b) =>
      if Matches(a, s, i, j, ic) { Transfer(a, s, i, j, t, x, y, ic); } else { Transfer(b, s, i, j, t, x, y, ic); }
    case Repeat(b, min, max, _) => TransferCopies(b, min, max, s, i, j, t, x, y, ic);
  }

  lemma SplitSlice(s: Text, i: nat, e: nat, j: nat)
    requires i <= e && j <= |s|
    ensures i <= j ==> |s[i..j]| == j - i
    ensures e <= j ==> s[i..j][..e - i] == s[i..e] && s[i..j][e - i..] == s[e..j]
  {
  }

  lemma SplitWindow(s: Text, i: nat, e: nat, j: nat, t: Text, x: nat, y: nat)
    requires i <= e <= j <= |s| && x <= y <= |t| && s[i..j] == t[x..y]
    ensures x + (e - i) <= y && s[i..e] == t[x..x + (e - i)] && s[e..j] == t[x + (e - i)..y]
  {
    SplitSlice(s, i, e, j);
    SplitSlice(t, x, x + (e - i), y);
  }

  lemma SplitView(r: Regex, a: Regex, b: Regex, s: Text, i: nat, e: nat, j: nat, t: Text, x: nat, y: nat)
    requires i <= e <= j <= |s| && x <= y <= |t|
    requires SameView(r, s, i, j, t, x, y) && j - i == y - x
    requires ContextFree(r) ==> ContextFree(a) && ContextFree(b)
    ensures x + (e - i) <= y
    ensures SameView(a, s, i, e, t, x, x + (e - i))
    ensures SameView(b, s, e, j, t, x + (e - i), y)
  {
    SplitWindow(s, i, e, j, t, x, y);
    if i < e { assert s[i..j][e - 1 - i] == t[x..y][e - 1 - i]; }
    if e < j { assert s[i..j][e - i] == t[x..y][e - i]; }
  }

  lemma {:induction false} TransferCopies(r: Regex, min: nat, max: Bound, s: Text, i: nat, j: nat, t: Text, x: nat,
        y: nat, ic: bool)
    requires i <= j <= |s| && x <= y <= |t|
    requires SameView(r, s, i, j, t, x, y) && j - i == y - x
    requires Copies(r, min, max, s, i, j, ic)
    ensures Copies(r, min, max, t, x, y, ic)
    decreases r, 1, min, j - i
  {
    if !(min == 0 && i == j) {
      var e: nat :| Between(i, e, j) && (min > 0 || e > i) && Matches(r, s, i, e, ic) &&
                    Copies(r, Pred(min), Dec(max), s, e, j, ic);
      var f := x + (e - i);
      SplitView(r, r, r, s, i, e, j, t, x, y);
      Transfer(r, s, i, e, t, x, f, ic);
      TransferCopies(r, Pred(min), Dec(max), s, e, j, t, f, y, ic);
      assert Between(x, f, y);
    }
  }

  /** A span of `k` characters is matched by `k{min,max}` when its length is in range. */
  lemma {:induction false} ClassRun(k: CharClass, min: nat, max: Bound, s: Text, i: nat, j: nat, ic: bool)
    requires i <= j <= |s|
    requires forall x :: i <= x < j ==> In(k, s[x], ic)
    requires min <= j - i && (max.AtMost? ==> j - i <= max.n)
    ensures Copies(Char(k), min, max, s, i, j, ic)
    decreases j - i
  {
    if i < j {
      ClassRun(k, Pred(min), Dec(max), s, i + 1, j, ic);
      assert Matches(Char(k), s, i, i + 1, ic);
      assert Between(i, i + 1, j);
    }
  }

  // ------------------------------------------------------------------- ignoring case

  /** The texts differ in the case of letters only. */
  ghost predicate SameButCase(s: Text, t: Text) {
    |s| == |t| && forall x :: 0 <= x < |s| ==> Fold(s[x]) == Fold(t[x])
  }

  lemma FoldKeepsClass(k: CharClass, c: Unit, d: Unit)
    requires Fold(c) == Fold(d)
    ensures In(k, c, true) == In(k, d, true) && IsWord(c) == IsWord(d)
  {
  }

  /** Where case is ignored, matches do not depend on it. */
  lemma {:induction false} MatchIgnoresCase(r: Regex, s: Text, t: Text, i: nat, j: nat)
    requires SameButCase(s, t) && i <= j <= |s| && Matches(r, s, i, j, true)
    ensures Matches(r, t, i, j, true)
    decreases r, 0, 0, 0
  {
    match r
    case Char(k) => FoldKeepsClass(k, s[i], t[i]);
    case Edge =>
      if i > 0 {
        FoldKeepsClass(Dot, s[i - 1], t[i - 1]);
      }
      if i < |s| {
        FoldKeepsClass(Dot, s[i], t[i]);
      }
    case Cat(a, b) =>
      var e: nat :| Between(i, e, j) && Matches(a, s, i, e, true) && Matches(b, s, e, j, true);
      MatchIgnoresCase(a, s, t, i, e);
      MatchIgnoresCase(b, s, t, e, j);
    case Either(a, b) =>
      if Matches(a, s, i, j, true) { MatchIgnoresCase(a, s, t, i, j); } else { MatchIgnoresCase(b, s, t, i, j); }
    case Repeat(b, min, max, _) => CopiesIgnoreCase(b, min, max, s, t, i, j);
    case _ =>
  }

  lemma {:induction false} CopiesIgnoreCase(r: Regex, min: nat, max: Bound, s: Text, t: Text, i: nat, j: nat)
    requires SameButCase(s, t) && i <= j <= |s| && Copies(r, min, max, s, i, j, true)
    ensures Copies(r, min, max, t, i, j, true)
    decreases r, 1, min, j - i
  {
    if !(min == 0 && i == j) {
      var e: nat :| Between(i, e, j) && (min > 0 || e > i) && Matches(r, s, i, e, true)
                    && Copies(r, Pred(min), Dec(max), s, e, j, true);
      MatchIgnoresCase(r, s, t, i, e);
      CopiesIgnoreCase(r, Pred(min), Dec(max), s, t, e, j);
    }
  }
}
