/** Runs of a transition system given by its step function. */
module Runs {

  /** The state after the steps of a schedule, one after the other. */
  function Run<S, E>(apply: (S, E) -> S, s: S, schedule: seq<E>): S {
    if schedule == [] then s
    else apply(Run(apply, s, schedule[..|schedule| - 1]), schedule[|schedule| - 1])
  }

  lemma RunOne<S, E>(apply: (S, E) -> S, s: S, step: E)
    ensures Run(apply, s, [step]) == apply(s, step)
  {
    assert [step][..0] == [];
  }

  lemma RunSnoc<S, E>(apply: (S, E) -> S, s: S, schedule: seq<E>, step: E)
    ensures Run(apply, s, schedule + [step]) == apply(Run(apply, s, schedule), step)
  {
    assert (schedule + [step])[..|schedule|] == schedule;
  }

  /** A run of two schedules is the run of the second from where the first ends. */
  lemma {:induction false} RunConcat<S, E>(apply: (S, E) -> S, s: S, a: seq<E>, b: seq<E>)
    ensures Run(apply, s, a + b) == Run(apply, Run(apply, s, a), b)
  {
    if b == [] {
      assert a + b == a;
    } else {
      assert (a + b)[..|a + b| - 1] == a + b[..|b| - 1];
      RunConcat(apply, s, a, b[..|b| - 1]);
    }
  }
}
