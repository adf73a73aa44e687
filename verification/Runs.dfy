/**
 Runs of a deterministic machine: a state, and the steps it takes one after another.
 */
module Runs {

  function RunFrom<S, A>(after: (S, A) -> S, s: S, steps: seq<A>): S
    decreases |steps|
  {
    if steps == [] then s else RunFrom(after, after(s, steps[0]), steps[1..])
  }

  lemma {:induction false} RunSplits<S, A>(after: (S, A) -> S, s: S, steps: seq<A>, more: seq<A>)
    ensures RunFrom(after, s, steps + more) == RunFrom(after, RunFrom(after, s, steps), more)
    decreases |steps|
  {
    if steps == [] {
      assert steps + more == more;
    } else {
      assert (steps + more)[1..] == steps[1..] + more;
      RunSplits(after, after(s, steps[0]), steps[1..], more);
    }
  }
}
