/** Runs of a transition function over a list of inputs, and the two inductions used on them. */
module Runs {

  function Fold<S, I>(step: (S, I) -> S, s: S, inputs: seq<I>): S {
    if inputs == [] then s
    else step(Fold(step, s, inputs[..|inputs| - 1]), inputs[|inputs| - 1])
  }

  lemma FoldNext<S, I>(step: (S, I) -> S, s: S, inputs: seq<I>, k: nat)
    requires k < |inputs|
    ensures Fold(step, s, inputs[..k + 1]) == step(Fold(step, s, inputs[..k]), inputs[k])
  {
    assert inputs[..k + 1][..k] == inputs[..k];
  }

  lemma {:induction false} FoldAppend<S, I>(step: (S, I) -> S, s: S, a: seq<I>, b: seq<I>)
    ensures Fold(step, s, a + b) == Fold(step, Fold(step, s, a), b)
    decreases |b|
  {
    if b == [] {
      assert a + b == a;
    } else {
      assert (a + b)[..|a + b| - 1] == a + b[..|b| - 1];
      FoldAppend(step, s, a, b[..|b| - 1]);
    }
  }

  ghost predicate Keeps<S(!new), I(!new)>(step: (S, I) -> S, inv: S -> bool) {
    forall s, i :: inv(s) ==> inv(step(s, i))
  }

  lemma {:induction false} FoldKeeps<S(!new), I(!new)>(step: (S, I) -> S, inv: S -> bool, s: S, inputs: seq<I>)
    requires inv(s) && Keeps(step, inv)
    ensures inv(Fold(step, s, inputs))
    decreases |inputs|
  {
    if inputs != [] { FoldKeeps(step, inv, s, inputs[..|inputs| - 1]); }
  }

  ghost predicate NeverDrops<S(!new), I(!new)>(step: (S, I) -> S, inv: S -> bool, measure: S -> nat) {
    forall s, i :: inv(s) ==> measure(s) <= measure(step(s, i))
  }

  lemma {:induction false} FoldNeverDrops<S(!new), I(!new)>(
    step: (S, I) -> S, inv: S -> bool, measure: S -> nat, s: S, inputs: seq<I>, i: nat, j: nat)
    requires inv(s) && Keeps(step, inv) && NeverDrops(step, inv, measure) && i <= j <= |inputs|
    ensures measure(Fold(step, s, inputs[..i])) <= measure(Fold(step, s, inputs[..j]))
    decreases j - i
  {
    if i < j {
      FoldNeverDrops(step, inv, measure, s, inputs, i, j - 1);
      FoldKeeps(step, inv, s, inputs[..j - 1]);
      FoldNext(step, s, inputs, j - 1);
    }
  }
}
