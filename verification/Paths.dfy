/** Sequences of states in which each one follows from the one before. */
module Paths {

  predicate Linked<S>(next: (S, S) -> bool, states: seq<S>, i: nat) {
    0 < i < |states| && next(states[i - 1], states[i])
  }

  predicate IsPath<S>(next: (S, S) -> bool, states: seq<S>) {
    states != [] && forall i: nat {:trigger Linked(next, states, i)} :: 0 < i < |states| ==> Linked(next, states, i)
  }

  lemma OneStepIsPath<S>(next: (S, S) -> bool, s: S, t: S)
    requires next(s, t)
    ensures IsPath(next, [s, t])
  {
    assert Linked(next, [s, t], 1);
  }

  lemma PathsJoin<S>(next: (S, S) -> bool, xs: seq<S>, ys: seq<S>)
    requires IsPath(next, xs) && IsPath(next, ys) && xs[|xs| - 1] == ys[0]
    ensures
      var zs := xs + ys[1..];
      IsPath(next, zs) && zs[0] == xs[0] && zs[|zs| - 1] == ys[|ys| - 1]
  {
    var zs := xs + ys[1..];
    forall i: nat | 0 < i < |zs|
      ensures Linked(next, zs, i)
    {
      if i < |xs| {
        assert Linked(next, xs, i);
      } else {
        assert Linked(next, ys, i - |xs| + 1);
      }
    }
  }

  /** What every step keeps holds in every state of a path. */
  lemma {:induction false} PathKeeps<S(!new)>(next: (S, S) -> bool, inv: S -> bool, states: seq<S>, i: nat)
    requires IsPath(next, states) && i < |states| && inv(states[0])
    requires forall s, t :: inv(s) && next(s, t) ==> inv(t)
    ensures inv(states[i])
  {
    if i == 0 {
    } else {
      PathKeeps(next, inv, states, i - 1);
      assert Linked(next, states, i);
    }
  }
}
