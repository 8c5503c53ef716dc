/** Runs of a machine whose step function says what each event does, and when it
    is impossible.  Every protocol of this project is such a machine. */
module Machine {
  import opened Bytes

  /** The state after the events, None if some event is impossible where it comes. */
  function Run<S, E>(next: (S, E) -> Option<S>, init: S, events: seq<E>): Option<S> {
    if events == [] then Some(init)
    else
      var before := Run(next, init, events[..|events| - 1]);
      if before.Some? then next(before.value, events[|events| - 1]) else None
  }

  /** What holds at the start and is kept by every step holds after every run. */
  lemma {:induction false} Invariance<S(!new), E(!new)>(
      next: (S, E) -> Option<S>, init: S, inv: S -> bool, events: seq<E>)
    requires inv(init)
    requires forall s, e :: inv(s) && next(s, e).Some? ==> inv(next(s, e).value)
    requires Run(next, init, events).Some?
    ensures inv(Run(next, init, events).value)
  {
    if events != [] {
      Invariance(next, init, inv, events[..|events| - 1]);
    }
  }

  /** What holds after a run and is kept by the allowed events holds however the run goes
      on with those. */
  lemma {:induction false} Persistence<S(!new), E(!new)>(
      next: (S, E) -> Option<S>, init: S, inv: S -> bool, allowed: E -> bool, events: seq<E>, more: seq<E>)
    requires Run(next, init, events).Some? && inv(Run(next, init, events).value)
    requires forall s, e :: inv(s) && allowed(e) && next(s, e).Some? ==> inv(next(s, e).value)
    requires Run(next, init, events + more).Some? && forall k | 0 <= k < |more| :: allowed(more[k])
    ensures inv(Run(next, init, events + more).value)
    decreases |more|
  {
    if more == [] {
      assert events + more == events;
    } else {
      assert (events + more)[..|events + more| - 1] == events + more[..|more| - 1];
      Persistence(next, init, inv, allowed, events, more[..|more| - 1]);
    }
  }

  /** A run can be extended by any step possible in its last state. */
  lemma Extend<S, E>(next: (S, E) -> Option<S>, init: S, events: seq<E>, e: E)
    requires Run(next, init, events).Some?
    ensures Run(next, init, events + [e]) == next(Run(next, init, events).value, e)
  {
    assert (events + [e])[..|events|] == events;
  }

  lemma {:induction false} RunConcat<S, E>(next: (S, E) -> Option<S>, init: S, a: seq<E>, b: seq<E>)
    requires Run(next, init, a).Some?
    ensures Run(next, init, a + b) == Run(next, Run(next, init, a).value, b)
    decreases |b|
  {
    if b == [] {
      assert a + b == a;
    } else {
      assert (a + b)[..|a + b| - 1] == a + b[..|b| - 1];
      RunConcat(next, init, a, b[..|b| - 1]);
    }
  }

  /** The states that some run gets to. */
  ghost function Reachable<S(!new), E(!new)>(next: (S, E) -> Option<S>, init: S): S -> bool {
    s => exists events :: Run(next, init, events) == Some(s)
  }

  /** A set of states that no event leaves. */
  ghost predicate Saturated<S(!new), E(!new)>(next: (S, E) -> Option<S>, r: S -> bool) {
    forall s, e {:trigger next(s, e)} :: r(s) && next(s, e).Some? ==> r(next(s, e).value)
  }

  /** One event inside such a set. */
  lemma Advance<S(!new), E(!new)>(next: (S, E) -> Option<S>, r: S -> bool, s: S, e: E) returns (t: S)
    requires Saturated(next, r) && r(s) && next(s, e).Some?
    ensures next(s, e) == Some(t) && r(t)
  {
    t := next(s, e).value;
  }

  lemma ReachableIsSaturated<S(!new), E(!new)>(next: (S, E) -> Option<S>, init: S)
    ensures Saturated(next, Reachable(next, init)) && Reachable(next, init)(init)
  {
    assert Run(next, init, []) == Some(init);
    forall s, e | Reachable(next, init)(s) && next(s, e).Some? ensures Reachable(next, init)(next(s, e).value) {
      var events :| Run(next, init, events) == Some(s);
      Extend(next, init, events, e);
      assert Run(next, init, events + [e]) == Some(next(s, e).value);
    }
  }

  lemma RunTo<S(!new), E(!new)>(next: (S, E) -> Option<S>, init: S, s: S) returns (events: seq<E>)
    requires Reachable(next, init)(s)
    ensures Run(next, init, events) == Some(s)
  {
    events :| Run(next, init, events) == Some(s);
  }
}
