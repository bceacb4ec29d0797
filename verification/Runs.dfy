/** Runs of a system whose steps are a function of the state. */
module Runs {

  function Fold<S, A>(next: (S, A) -> S, s: S, steps: seq<A>): S {
    if steps == [] then s else next(Fold(next, s, steps[..|steps| - 1]), steps[|steps| - 1])
  }

  lemma FoldStep<S, A>(next: (S, A) -> S, s: S, steps: seq<A>, step: A)
    ensures Fold(next, s, steps + [step]) == next(Fold(next, s, steps), step)
  {
    assert (steps + [step])[..|steps|] == steps;
  }

  lemma {:induction false} FoldAppend<S, A>(next: (S, A) -> S, s: S, steps: seq<A>, more: seq<A>)
    ensures Fold(next, s, steps + more) == Fold(next, Fold(next, s, steps), more)
  {
    if more == [] {
      assert steps + more == steps;
    } else {
      FoldAppend(next, s, steps, more[..|more| - 1]);
      assert (steps + more)[..|steps + more| - 1] == steps + more[..|more| - 1];
    }
  }
}
