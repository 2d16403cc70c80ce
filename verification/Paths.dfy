/** Paths of a transition system: finitely many steps, taken one after the other. */
module Paths {

  /** The moves lead from each state to the next. */
  ghost predicate Path<S(!new), M(!new)>(step: (S, M, S) -> bool, states: seq<S>, moves: seq<M>) {
    |states| == |moves| + 1 && forall i {:trigger moves[i]} | 0 <= i < |moves| :: step(states[i], moves[i], states[i + 1])
  }

  ghost predicate Leads<S(!new), M(!new)>(
    step: (S, M, S) -> bool, states: seq<S>, moves: seq<M>, from: S, to: S)
  {
    Path(step, states, moves) && states[0] == from && states[|moves|] == to
  }

  ghost predicate Reaches<S(!new), M(!new)>(step: (S, M, S) -> bool, from: S, to: S) {
    exists states: seq<S>, moves: seq<M> :: Leads(step, states, moves, from, to)
  }

  lemma Stays<S(!new), M(!new)>(step: (S, M, S) -> bool, s: S)
    ensures Reaches<S, M>(step, s, s)
  {
    var states: seq<S>, moves: seq<M> := [s], [];
    assert Leads(step, states, moves, s, s);
  }

  lemma Further<S(!new), M(!new)>(step: (S, M, S) -> bool, from: S, s: S, a: M, t: S)
    requires Reaches<S, M>(step, from, s) && step(s, a, t)
    ensures Reaches<S, M>(step, from, t)
  {
    var states: seq<S>, moves: seq<M> :| Leads(step, states, moves, from, s);
    var longer, more := states + [t], moves + [a];
    forall i | 0 <= i < |more|
      ensures step(longer[i], more[i], longer[i + 1])
    {
      assert i < |moves| ==> more[i] == moves[i];
    }
    assert Leads(step, longer, more, from, t);
  }
}
