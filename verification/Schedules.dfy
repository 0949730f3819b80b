/** Runs of a transition system given by its start and its step function. */
module Schedules {
  import opened Common

  /** The state a schedule leads to from the start; None when some action in it is disabled. */
  function Run<S, A>(start: S, step: (S, A) -> Option<S>, sched: seq<A>): Option<S> {
    if sched == [] then Some(start)
    else
      match Run(start, step, sched[..|sched| - 1])
      case None => None
      case Some(s) => step(s, sched[|sched| - 1])
  }

  ghost predicate Reachable<S, A(!new)>(start: S, step: (S, A) -> Option<S>, s: S) {
    exists sched: seq<A> :: Run(start, step, sched) == Some(s)
  }

  /** A property of the start that every step keeps. */
  ghost predicate Closed<S(!new), A(!new)>(start: S, step: (S, A) -> Option<S>, p: S -> bool) {
    p(start) && forall s: S, a: A :: p(s) && step(s, a).Some? ==> p(step(s, a).value)
  }

  lemma StepKeeps<S(!new), A(!new)>(start: S, step: (S, A) -> Option<S>, p: S -> bool, s: S, a: A)
    requires Closed(start, step, p) && p(s) && step(s, a).Some?
    ensures p(step(s, a).value)
  {
  }

  lemma ReachableExtends<S, A(!new)>(start: S, step: (S, A) -> Option<S>, s: S, a: A)
    requires Reachable(start, step, s) && step(s, a).Some?
    ensures Reachable(start, step, step(s, a).value)
  {
    var sched: seq<A> :| Run(start, step, sched) == Some(s);
    var longer := sched + [a];
    assert longer[..|longer| - 1] == sched;
    assert Run(start, step, longer) == step(s, a);
  }

  /** Being reachable is such a property. */
  lemma ReachableIsClosed<S(!new), A(!new)>(start: S, step: (S, A) -> Option<S>)
    ensures Closed(start, step, s => Reachable(start, step, s))
  {
    var none: seq<A> := [];
    assert Run(start, step, none) == Some(start);
    forall s: S, a: A | Reachable(start, step, s) && step(s, a).Some?
      ensures Reachable(start, step, step(s, a).value)
    {
      ReachableExtends(start, step, s, a);
    }
  }

  /** A schedule in two parts. */
  lemma {:induction false} RunOfConcat<S, A>(start: S, step: (S, A) -> Option<S>, a: seq<A>, b: seq<A>)
    ensures Run(start, step, a + b) ==
      match Run(start, step, a) { case None => None case Some(s) => Run(s, step, b) }
  {
    if b == [] {
      assert a + b == a;
    } else {
      assert (a + b)[..|a + b| - 1] == a + b[..|b| - 1];
      RunOfConcat(start, step, a, b[..|b| - 1]);
    }
  }
}
