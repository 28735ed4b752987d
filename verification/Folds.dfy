/** Running a step over the first elements of a list. */
module Folds {
  function Fold<S, T>(step: (S, T) -> S, s: S, xs: seq<T>, n: nat): S
    requires n <= |xs|
  {
    if n == 0 then s else step(Fold(step, s, xs, n - 1), xs[n - 1])
  }

  lemma {:induction false} FoldPrefix<S, T>(step: (S, T) -> S, s: S, a: seq<T>, b: seq<T>, n: nat)
    requires n <= |a|
    ensures Fold(step, s, a + b, n) == Fold(step, s, a, n)
  {
    if n > 0 { FoldPrefix(step, s, a, b, n - 1); }
  }

  /** Two runs in a row are one run. */
  lemma {:induction false} FoldConcat<S, T>(step: (S, T) -> S, s: S, a: seq<T>, b: seq<T>, n: nat)
    requires n <= |b|
    ensures Fold(step, s, a + b, |a| + n) == Fold(step, Fold(step, s, a, |a|), b, n)
  {
    if n > 0 {
      FoldConcat(step, s, a, b, n - 1);
      assert (a + b)[|a| + n - 1] == b[n - 1];
    } else {
      FoldPrefix(step, s, a, b, |a|);
    }
  }
}
