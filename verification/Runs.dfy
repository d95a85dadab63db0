/** Runs of a transition system, step by step from a start state. */
module Runs {
  import opened Bytes

  /** The state after a sequence of steps, if every step was possible in its turn. */
  function Run<S, E>(start: S, next: (S, E) -> Option<S>, steps: seq<E>): Option<S>
    decreases |steps|
  {
    if steps == [] then Some(start)
    else
      var last := |steps| - 1;
      match Run(start, next, steps[..last])
      case Some(s) => next(s, steps[last])
      case None => None
  }

  /** What every step of a run keeps holds after it. */
  lemma {:induction false} Invariant<S, E>(start: S, next: (S, E) -> Option<S>, steps: seq<E>, inv: S -> bool)
    requires Run(start, next, steps).Some? && inv(start)
    requires forall s, e :: e in steps && inv(s) && next(s, e).Some? ==> inv(next(s, e).value)
    ensures inv(Run(start, next, steps).value)
    decreases |steps|
  {
    if steps != [] {
      var last := |steps| - 1;
      assert steps[last] in steps;
      Invariant(start, next, steps[..last], inv);
    }
  }

  lemma OneMore<S, E>(start: S, next: (S, E) -> Option<S>, steps: seq<E>, s: S, e: E)
    requires Run(start, next, steps) == Some(s)
    ensures Run(start, next, steps + [e]) == next(s, e)
  {
    var all := steps + [e];
    assert all[..|all| - 1] == steps;
  }

  /** One run after another. */
  lemma {:induction false} Both<S, E>(start: S, next: (S, E) -> Option<S>, a: seq<E>, b: seq<E>)
    requires Run(start, next, a).Some?
    ensures Run(start, next, a + b) == Run(Run(start, next, a).value, next, b)
    decreases |b|
  {
    if b == [] {
      assert a + b == a;
    } else {
      var last := |b| - 1;
      assert (a + b)[..|a| + last] == a + b[..last];
      Both(start, next, a, b[..last]);
    }
  }
}
