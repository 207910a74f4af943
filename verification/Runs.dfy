/**
  Runs of a step relation, and what every run keeps.
*/
module Runs {

  /** `t` is reached from `s` in `k` steps. */
  ghost predicate Reaches<S(!new)>(steps: (S, S) -> bool, s: S, t: S, k: nat)
    decreases k
  {
    if k == 0 then s == t else exists u :: Reaches(steps, s, u, k - 1) && steps(u, t)
  }

  /** A run from `s` to `t`, of any length. */
  ghost predicate Run<S(!new)>(steps: (S, S) -> bool, s: S, t: S) {
    exists k: nat :: Reaches(steps, s, t, k)
  }

  lemma Nothing<S(!new)>(steps: (S, S) -> bool, s: S)
    ensures Run(steps, s, s)
  {
    assert Reaches(steps, s, s, 0);
  }

  lemma Then<S(!new)>(steps: (S, S) -> bool, s: S, t: S, u: S)
    requires Run(steps, s, t) && steps(t, u)
    ensures Run(steps, s, u)
  {
    var k: nat :| Reaches(steps, s, t, k);
    assert Reaches(steps, s, u, k + 1);
  }

  /** An invariant holds at the end of every run. */
  lemma RunKeeps<S(!new)>(steps: (S, S) -> bool, inv: S -> bool, s: S, t: S)
    requires inv(s) && Run(steps, s, t)
    requires forall a, b {:trigger steps(a, b)} :: inv(a) && steps(a, b) ==> inv(b)
    ensures inv(t)
  {
    var k: nat :| Reaches(steps, s, t, k);
    ReachKeeps(steps, inv, s, t, k);
  }

  lemma {:induction false} ReachKeeps<S(!new)>(steps: (S, S) -> bool, inv: S -> bool, s: S, t: S, k: nat)
    requires inv(s) && Reaches(steps, s, t, k)
    requires forall a, b {:trigger steps(a, b)} :: inv(a) && steps(a, b) ==> inv(b)
    ensures inv(t)
    decreases k
  {
    if k > 0 {
      var u :| Reaches(steps, s, u, k - 1) && steps(u, t);
      ReachKeeps(steps, inv, s, u, k - 1);
    }
  }
}
