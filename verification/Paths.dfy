/** Paths of a relation, and what every step of them keeps. */
module Paths {
  ghost predicate PathOf<S(!new)>(steps: (S, S) -> bool, path: seq<S>) {
    forall t :: 0 < t < |path| ==> steps(path[t - 1], path[t])
  }

  ghost predicate Preserved<S(!new)>(steps: (S, S) -> bool, good: S -> bool) {
    forall s, q :: steps(s, q) && good(s) ==> good(q)
  }

  lemma {:induction false} Along<S(!new)>(steps: (S, S) -> bool, good: S -> bool, path: seq<S>, i: nat, j: nat)
    requires PathOf(steps, path) && Preserved(steps, good) && i <= j < |path| && good(path[i])
    ensures good(path[j])
    decreases j
  {
    if i < j {
      Along(steps, good, path, i, j - 1);
      assert steps(path[j - 1], path[j]);
    }
  }

  /** From just after b, all the way round to b again. */
  lemma Round<S(!new)>(steps: (S, S) -> bool, good: S -> bool, path: seq<S>, a: nat, b: nat)
    requires PathOf(steps, path) && Preserved(steps, good) && a <= b < |path| && steps(path[|path| - 1], path[a])
    requires good(if b + 1 < |path| then path[b + 1] else path[a])
    ensures good(path[b])
  {
    if b + 1 < |path| { Along(steps, good, path, b + 1, |path| - 1); }
    Along(steps, good, path, a, b);
  }
}
