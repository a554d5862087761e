/** Paths and reachability of a state machine given by its step relation. */
module Runs {

  ghost predicate Linked<S(!new)>(step: (S, S) -> bool, path: seq<S>, i: nat)
    requires i + 1 < |path|
  {
    step(path[i], path[i + 1])
  }

  ghost predicate IsPath<S(!new)>(step: (S, S) -> bool, path: seq<S>) {
    |path| > 0 && forall i: nat :: i + 1 < |path| ==> Linked(step, path, i)
  }

  lemma StepAt<S(!new)>(step: (S, S) -> bool, path: seq<S>, i: nat)
    requires IsPath(step, path) && i + 1 < |path|
    ensures step(path[i], path[i + 1])
  {
    assert Linked(step, path, i);
  }

  lemma ExtendPath<S(!new)>(step: (S, S) -> bool, path: seq<S>, t: S)
    requires IsPath(step, path) && step(path[|path| - 1], t)
    ensures IsPath(step, path + [t])
  {
    forall i: nat | i + 1 < |path + [t]| ensures Linked(step, path + [t], i) {
      assert i + 1 < |path| ==> Linked(step, path, i);
    }
  }

  ghost predicate Reaches<S(!new)>(step: (S, S) -> bool, s: S, t: S) {
    exists path :: IsPath(step, path) && path[0] == s && path[|path| - 1] == t
  }

  lemma ReachesSelf<S(!new)>(step: (S, S) -> bool, s: S)
    ensures Reaches(step, s, s)
  {
    assert IsPath(step, [s]);
  }

  lemma ReachesNext<S(!new)>(step: (S, S) -> bool, s: S, t: S, u: S)
    requires Reaches(step, s, t) && step(t, u)
    ensures Reaches(step, s, u)
  {
    var p :| IsPath(step, p) && p[0] == s && p[|p| - 1] == t;
    ExtendPath(step, p, u);
    assert (p + [u])[0] == s && (p + [u])[|p + [u]| - 1] == u;
  }

  /** A path that leaves a region does so in some step. */
  lemma {:induction false} FirstExit<S(!new)>(path: seq<S>, i: nat, j: nat, inside: S -> bool) returns (k: nat)
    requires i <= j < |path| && inside(path[i]) && !inside(path[j])
    ensures i <= k < j && inside(path[k]) && !inside(path[k + 1])
    decreases j - i
  {
    k := i;
    if inside(path[i + 1]) {
      k := FirstExit(path, i + 1, j, inside);
    }
  }
}
