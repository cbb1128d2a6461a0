/** Runs of a transition system: its steps, one after another, as long as each is possible. */
module Runs {
  import opened Ordering

  /** The state after these events, or nothing when one of them was not possible. */
  function RunOf<S, E>(step: (S, E) -> Option<S>, s: S, events: seq<E>): Option<S> {
    if events == [] then Some(s)
    else match RunOf(step, s, events[..|events| - 1])
      case None => None
      case Some(t) => step(t, events[|events| - 1])
  }

  lemma RunOne<S, E>(step: (S, E) -> Option<S>, s: S, events: seq<E>, e: E)
    ensures RunOf(step, s, events + [e]) ==
      if RunOf(step, s, events).None? then None else step(RunOf(step, s, events).value, e)
  {
    assert (events + [e])[..|events|] == events;
  }

  /** A run of a concatenation is a run of its parts, one after the other. */
  lemma {:induction false} RunJoin<S, E>(step: (S, E) -> Option<S>, s: S, a: seq<E>, b: seq<E>)
    ensures RunOf(step, s, a + b) == if RunOf(step, s, a).None? then None else RunOf(step, RunOf(step, s, a).value, b)
  {
    if b == [] {
      assert a + b == a;
    } else {
      assert (a + b)[..|a + b| - 1] == a + b[..|b| - 1];
      RunJoin(step, s, a, b[..|b| - 1]);
    }
  }
}
