/** Repeating a step until a condition holds, at most so many times. */
module Iteration {

  function Iterated<S>(step: S -> S, x: S, k: nat): S {
    if k == 0 then x else step(Iterated(step, x, k - 1))
  }

  function Until<S>(stop: S -> bool, step: S -> S, x: S, left: nat): S
    decreases left
  {
    if left == 0 || stop(x) then x else Until(stop, step, step(x), left - 1)
  }

  /** Whether the condition is found to hold before the steps run out. */
  predicate Stops<S>(stop: S -> bool, step: S -> S, x: S, left: nat)
    decreases left
  {
    left > 0 && (stop(x) || Stops(stop, step, step(x), left - 1))
  }

  lemma {:induction false} StepsFollow<S>(step: S -> S, x: S, k: nat)
    ensures Iterated(step, step(x), k) == Iterated(step, x, k + 1)
  {
    if k > 0 {
      StepsFollow(step, x, k - 1);
    }
  }

  /** It stops exactly when the condition holds after fewer than that many steps. */
  lemma StopsIff<S>(stop: S -> bool, step: S -> S, x: S, left: nat)
    ensures Stops(stop, step, x, left) <==> exists k :: 0 <= k < left && stop(Iterated(step, x, k))
  {
    if Stops(stop, step, x, left) {
      var k := StopsAfter(stop, step, x, left);
    }
    if k :| 0 <= k < left && stop(Iterated(step, x, k)) {
      StopsBy(stop, step, x, left, k);
    }
  }

  lemma {:induction false} StopsAfter<S>(stop: S -> bool, step: S -> S, x: S, left: nat) returns (k: nat)
    requires Stops(stop, step, x, left)
    ensures k < left && stop(Iterated(step, x, k))
    decreases left
  {
    if stop(x) {
      k := 0;
    } else {
      k := StopsAfter(stop, step, step(x), left - 1);
      StepsFollow(step, x, k);
      k := k + 1;
    }
  }

  lemma {:induction false} StopsBy<S>(stop: S -> bool, step: S -> S, x: S, left: nat, k: nat)
    requires k < left && stop(Iterated(step, x, k))
    ensures Stops(stop, step, x, left)
    decreases left
  {
    if k > 0 {
      StepsFollow(step, x, k - 1);
      StopsBy(stop, step, step(x), left - 1, k - 1);
    }
  }

  /** Where it ends: where the condition holds, or after all its steps. */
  lemma {:induction false} UntilEnds<S>(stop: S -> bool, step: S -> S, x: S, left: nat)
    ensures Stops(stop, step, x, left) ==> stop(Until(stop, step, x, left))
    ensures !Stops(stop, step, x, left) ==> Until(stop, step, x, left) == Iterated(step, x, left)
    decreases left
  {
    if left > 0 {
      UntilEnds(stop, step, step(x), left - 1);
      StepsFollow(step, x, left - 1);
    }
  }
}
