/** Runs of a system that moves from state to state in atomic steps. */
module Runs {

  ghost predicate Follows<S(!new)>(step: (S, S) -> bool, run: seq<S>, i: nat)
    requires i < |run| - 1
  {
    step(run[i], run[i + 1])
  }

  /** A run starts in an initial state and makes a step from each state to the next. */
  ghost predicate IsRun<S(!new)>(init: S -> bool, step: (S, S) -> bool, run: seq<S>) {
    run != [] && init(run[0]) && forall i :: 0 <= i < |run| - 1 ==> Follows(step, run, i)
  }

  ghost predicate Inductive<S(!new)>(init: S -> bool, step: (S, S) -> bool, inv: S -> bool) {
    && (forall s :: init(s) ==> inv(s))
    && (forall s, s' :: inv(s) && step(s, s') ==> inv(s'))
  }

  /** What holds initially and is kept by every step holds at every moment of every run. */
  lemma {:induction false} InvariantHolds<S(!new)>(init: S -> bool, step: (S, S) -> bool, inv: S -> bool,
                                            run: seq<S>, k: nat)
    requires Inductive(init, step, inv) && IsRun(init, step, run) && k < |run|
    ensures inv(run[k])
  {
    if k > 0 {
      InvariantHolds(init, step, inv, run, k - 1);
      assert Follows(step, run, k - 1);
    }
  }

  function Last<S>(run: seq<S>): S
    requires run != []
  {
    run[|run| - 1]
  }

  /** A run goes on with any step possible in its last state. */
  lemma Extend<S(!new)>(init: S -> bool, step: (S, S) -> bool, run: seq<S>, s: S) returns (longer: seq<S>)
    requires IsRun(init, step, run) && step(Last(run), s)
    ensures longer == run + [s] && IsRun(init, step, longer)
  {
    longer := run + [s];
    forall i | 0 <= i < |longer| - 1 ensures Follows(step, longer, i) {
      if i < |run| - 1 {
        assert Follows(step, run, i);
        assert longer[i] == run[i] && longer[i + 1] == run[i + 1];
      }
    }
  }
}
