/**
  What several modules share.
*/
module Base {
  datatype Option<+T> = None | Some(value: T)

  /** The source time of an event: none, one that a row can carry, or a number too
      large to be printed as a date. */
  datatype Stamp = Absent | At(time: string) | Unprintable

  function Min(a: nat, b: nat): nat { if a < b then a else b }

  /** Upper case, for the letters a to z. */
  function Upper(s: string): string {
    seq(|s|, i requires 0 <= i < |s| => if 'a' <= s[i] <= 'z' then s[i] - ' ' else s[i])
  }

  const LOWER_CASE := "abcdefghijklmnopqrstuvwxyz"
  const UPPER_CASE := "ABCDEFGHIJKLMNOPQRSTUVWXYZ"

  lemma UpperIs(s: string, i: nat, k: nat)
    requires i < |s| && k < 26
    ensures s[i] == LOWER_CASE[k] ==> Upper(s)[i] == UPPER_CASE[k]
    ensures s[i] !in LOWER_CASE ==> Upper(s)[i] == s[i]
  {
    LettersAre(k);
    if 'a' <= s[i] <= 'z' {
      LettersAre(s[i] as nat - 'a' as nat);
    }
  }

  lemma LettersAre(k: nat)
    requires k < 26
    ensures LOWER_CASE[k] as int == 97 + k && UPPER_CASE[k] as int == 65 + k
  {
  }

  /** A judgement as a value: methods carry it along where the predicate behind it
      would be unfolded at every step. */
  datatype Verdict = Upheld | Violated

  /** A quotient and a remainder are determined by what they have to satisfy. */
  lemma Division(x: nat, m: nat, q: nat, r: nat)
    requires m > 0 && x == q * m + r && r < m
    ensures x / m == q && x % m == r
  {
    var d: int, n: int := x / m - q, m;
    assert d * n == r - x % m;
    assert d >= 1 ==> d * n >= n;
    assert d <= -1 ==> d * n <= -n;
  }
}
