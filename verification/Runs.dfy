/** Runs of a state machine given by its step relation. */
module Runs {

  ghost predicate IsRun<S(!new), E(!new)>(step: (S, E, S) -> bool, s: S, es: seq<E>, t: S)
    decreases |es|
  {
    if |es| == 0 then s == t
    else
      var before, e := es[..|es| - 1], es[|es| - 1];
      exists u :: IsRun(step, s, before, u) && step(u, e, t)
  }

  lemma Append<S(!new), E(!new)>(step: (S, E, S) -> bool, s: S, es: seq<E>, u: S, e: E, t: S)
    requires IsRun(step, s, es, u) && step(u, e, t)
    ensures IsRun(step, s, es + [e], t)
  {
    var longer := es + [e];
    assert longer[..|longer| - 1] == es && longer[|longer| - 1] == e;
  }
}
