/** Runs: any sequence of calls, one after the other.  A kind of run has an invariant, a condition under which a call
    stops the kernel or leaves what the invariant speaks of, and a relation that says what any other call does. */
module Runs {

  /** The first `done` calls went from each state to the next. */
  ghost predicate SoFar<S, C>(inv: S -> bool, stops: (S, C) -> bool, step: (S, C, S) -> bool, states: seq<S>, calls: seq<C>, done: nat) {
    && done <= |calls| && |states| == done + 1
    && (forall i :: 0 <= i <= done ==> inv(states[i]))
    && (forall i :: 0 <= i < done ==> !stops(states[i], calls[i]) && step(states[i], calls[i], states[i + 1]))
  }

  /** A whole run: it ends with the last call, or at the first one that stops. */
  ghost predicate Ran<S, C>(inv: S -> bool, stops: (S, C) -> bool, step: (S, C, S) -> bool, states: seq<S>, calls: seq<C>, done: nat) {
    SoFar(inv, stops, step, states, calls, done) && (done < |calls| ==> stops(states[done], calls[done]))
  }

  lemma Starts<S, C>(inv: S -> bool, stops: (S, C) -> bool, step: (S, C, S) -> bool, calls: seq<C>, s: S)
    requires inv(s)
    ensures SoFar(inv, stops, step, [s], calls, 0)
  {
  }

  lemma Further<S, C>(inv: S -> bool, stops: (S, C) -> bool, step: (S, C, S) -> bool, states: seq<S>, calls: seq<C>, done: nat, s: S)
    requires SoFar(inv, stops, step, states, calls, done) && done < |calls|
    requires inv(s) && !stops(states[done], calls[done]) && step(states[done], calls[done], s)
    ensures SoFar(inv, stops, step, states + [s], calls, done + 1)
  {
    var t := states + [s];
    forall i | 0 <= i < done ensures !stops(t[i], calls[i]) && step(t[i], calls[i], t[i + 1]) {
      assert t[i] == states[i] && t[i + 1] == states[i + 1];
    }
  }

  lemma Stopped<S, C>(inv: S -> bool, stops: (S, C) -> bool, step: (S, C, S) -> bool, states: seq<S>, calls: seq<C>, done: nat)
    requires SoFar(inv, stops, step, states, calls, done) && (done < |calls| ==> stops(states[done], calls[done]))
    ensures Ran(inv, stops, step, states, calls, done)
  {
  }

}
