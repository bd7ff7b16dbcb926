/** Runs of a step relation, and the two arguments every protocol below rests on:
    a property that each step keeps holds all along a run, and a natural number that
    each step lowers bounds the length of every run. */
module Runs {

  /** Consecutive states of `run` are related by `next`; any scheduler's choices give such a sequence. */
  ghost predicate IsRun<S(!new)>(next: (S, S) -> bool, run: seq<S>) {
    && |run| > 0
    && forall i :: 0 <= i < |run| - 1 ==> next(run[i], run[i + 1])
  }

  ghost predicate Preserves<S(!new)>(next: (S, S) -> bool, inv: S -> bool) {
    forall s, t :: inv(s) && next(s, t) ==> inv(t)
  }

  ghost predicate Lowers<S(!new)>(next: (S, S) -> bool, inv: S -> bool, rank: S -> nat) {
    forall s, t :: inv(s) && next(s, t) ==> rank(t) < rank(s)
  }

  lemma {:induction false} InvariantAlong<S(!new)>(next: (S, S) -> bool, inv: S -> bool, run: seq<S>, i: nat)
    requires IsRun(next, run) && inv(run[0]) && Preserves(next, inv)
    requires i < |run|
    ensures inv(run[i])
  {
    if i > 0 {
      InvariantAlong(next, inv, run, i - 1);
      assert next(run[i - 1], run[i - 1 + 1]);
    }
  }

  lemma {:induction false} RankAlong<S(!new)>(next: (S, S) -> bool, inv: S -> bool, rank: S -> nat, run: seq<S>, i: nat)
    requires IsRun(next, run) && inv(run[0]) && Preserves(next, inv) && Lowers(next, inv, rank)
    requires i < |run|
    ensures inv(run[i]) && rank(run[i]) + i <= rank(run[0])
  {
    if i > 0 {
      RankAlong(next, inv, rank, run, i - 1);
      assert next(run[i - 1], run[i - 1 + 1]);
    }
  }

  /** The same, counted from a later state of the run. */
  lemma {:induction false} RankBetween<S(!new)>(next: (S, S) -> bool, inv: S -> bool, rank: S -> nat,
                                                run: seq<S>, i: nat, j: nat)
    requires IsRun(next, run) && i <= j < |run|
    requires inv(run[i]) && Preserves(next, inv) && Lowers(next, inv, rank)
    ensures inv(run[j]) && rank(run[j]) + (j - i) <= rank(run[i])
  {
    var rest := run[i..];
    forall k | 0 <= k < |rest| - 1 ensures next(rest[k], rest[k + 1]) {
      assert next(run[i + k], run[i + k + 1]);
    }
    RankAlong(next, inv, rank, rest, j - i);
  }
}
