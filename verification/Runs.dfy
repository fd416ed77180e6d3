/** Runs of a transition system whose step either leads to a next state or is not enabled. */
module Runs {
  import opened Common

  /** The state after the first n steps, if each of them is enabled where it is taken. */
  function Moment<S, A>(next: (S, A) -> Option<S>, start: S, steps: seq<A>, n: nat): Option<S>
    requires n <= |steps|
  {
    if n == 0 then Some(start)
    else match Moment(next, start, steps, n - 1)
      case None => None
      case Some(s) => next(s, steps[n - 1])
  }

  predicate Legal<S, A>(next: (S, A) -> Option<S>, start: S, steps: seq<A>) {
    Moment(next, start, steps, |steps|).Some?
  }

  lemma {:induction false} LegalMoment<S, A>(next: (S, A) -> Option<S>, start: S, steps: seq<A>, n: nat)
    requires Legal(next, start, steps) && n <= |steps|
    ensures Moment(next, start, steps, n).Some?
    decreases |steps| - n
  {
    if n < |steps| { LegalMoment(next, start, steps, n + 1); }
  }

  /** The state of a legal run after n steps. */
  function StateAt<S, A>(next: (S, A) -> Option<S>, start: S, steps: seq<A>, n: nat): S
    requires Legal(next, start, steps) && n <= |steps|
  {
    LegalMoment(next, start, steps, n);
    Moment(next, start, steps, n).value
  }

  /** What holds at the start and survives every step holds at every moment of every run. */
  lemma {:induction false} AlwaysHolds<S(!new), A(!new)>(
    next: (S, A) -> Option<S>, start: S, inv: S -> bool, steps: seq<A>, n: nat)
    requires inv(start) && forall s, a :: inv(s) && next(s, a).Some? ==> inv(next(s, a).value)
    requires Legal(next, start, steps) && n <= |steps|
    ensures inv(StateAt(next, start, steps, n))
  {
    LegalMoment(next, start, steps, n);
    if n > 0 { AlwaysHolds(next, start, inv, steps, n - 1); }
  }

  /** A relation that every further step keeps holds between any earlier and any later moment. */
  lemma {:induction false} AlwaysRelates<S(!new), A(!new)>(
    next: (S, A) -> Option<S>, start: S, rel: (S, S) -> bool, steps: seq<A>, m: nat, n: nat)
    requires forall s :: rel(s, s)
    requires forall r, s, a :: rel(r, s) && next(s, a).Some? ==> rel(r, next(s, a).value)
    requires Legal(next, start, steps) && m <= n <= |steps|
    ensures rel(StateAt(next, start, steps, m), StateAt(next, start, steps, n))
  {
    LegalMoment(next, start, steps, n);
    if m < n { AlwaysRelates(next, start, rel, steps, m, n - 1); }
  }
}
