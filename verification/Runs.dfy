/** Runs of a state machine given by its step function. */
module Runs {
  function Run<S, E>(step: (S, E) -> S, s: S, events: seq<E>): S {
    if events == [] then s else step(Run(step, s, events[..|events| - 1]), events[|events| - 1])
  }

  lemma {:induction false} RunSum<S, E>(step: (S, E) -> S, s: S, p: seq<E>, q: seq<E>)
    ensures Run(step, s, p + q) == Run(step, Run(step, s, p), q)
  {
    if q == [] {
      assert p + q == p;
    } else {
      var n := |q| - 1;
      RunSum(step, s, p, q[..n]);
      assert (p + q)[..|p + q| - 1] == p + q[..n];
    }
  }

  lemma RunSnoc<S, E>(step: (S, E) -> S, s: S, p: seq<E>, e: E)
    ensures Run(step, s, p + [e]) == step(Run(step, s, p), e)
  {
    assert (p + [e])[..|p|] == p;
  }

  /** Whatever holds at the start and is kept by each step holds at the end; `inv` may look at the events so far. */
  lemma {:induction false} RunKeeps<S(!new), E>(step: (S, E) -> S, s: S, events: seq<E>, inv: (S, seq<E>) -> bool)
    requires inv(s, [])
    requires forall t, k :: 0 <= k < |events| && inv(t, events[..k]) ==> inv(step(t, events[k]), events[..k + 1])
    ensures inv(Run(step, s, events), events)
  {
    if events == [] {
    } else {
      var n := |events| - 1;
      var front := events[..n];
      forall t, k | 0 <= k < n && inv(t, front[..k]) ensures inv(step(t, front[k]), front[..k + 1]) {
        assert front[..k] == events[..k] && front[..k + 1] == events[..k + 1] && front[k] == events[k];
      }
      RunKeeps(step, s, front, inv);
      assert events[..n + 1] == events;
    }
  }
}
