/**
 Iterating a deterministic step that either follows to a next place or stops with a result:
 the shape shared by symlink-chain resolution and path canonicalisation.
 */
module Chains {
  import opened Common

  datatype Hop<T, R> = Stop(result: R) | Follow(to: T)

  /** The place after exactly n hops, if the chain is that long. */
  function After<T, R>(step: T -> Hop<T, R>, start: T, n: nat): Option<T> {
    if n == 0 then Some(start)
    else match After(step, start, n - 1)
      case Some(at) => (match step(at) case Follow(to) => Some(to) case Stop(_) => None)
      case None => None
  }

  /** The chain is at its n-th place when it stops with `r`. */
  ghost predicate EndsAt<T, R>(step: T -> Hop<T, R>, start: T, n: nat, r: R) {
    After(step, start, n).Some? && step(After(step, start, n).value) == Stop(r)
  }

  /** Equal places go on identically. */
  lemma {:induction false} AfterShift<T, R>(step: T -> Hop<T, R>, start: T, i: nat, j: nat, k: nat)
    requires After(step, start, i) == After(step, start, j)
    ensures After(step, start, i + k) == After(step, start, j + k)
  {
    if k > 0 {
      AfterShift(step, start, i, j, k - 1);
    }
  }

  lemma {:induction false} AfterPrefix<T, R>(step: T -> Hop<T, R>, start: T, i: nat, n: nat)
    requires i <= n && After(step, start, n).Some?
    ensures After(step, start, i).Some?
    decreases n - i
  {
    if i < n {
      AfterPrefix(step, start, i + 1, n);
    }
  }

  /** A chain that is twice at the same place never ends. */
  lemma {:induction false} RevisitNeverEnds<T, R>(step: T -> Hop<T, R>, start: T, i: nat, j: nat, n: nat, r: R)
    requires i < j && After(step, start, i).Some? && After(step, start, i) == After(step, start, j)
    ensures !EndsAt(step, start, n, r)
    decreases n
  {
    if EndsAt(step, start, n, r) {
      if n < j {
        AfterPrefix(step, start, n + 1, j);
        assert false;
      } else {
        AfterShift(step, start, i, j, n - j);
        RevisitNeverEnds(step, start, i, j, n - (j - i), r);
        assert false;
      }
    }
  }

  /** A chain ends at most once. */
  lemma {:induction false} EndsOnce<T, R>(step: T -> Hop<T, R>, start: T, m: nat, r: R, n: nat, s: R)
    requires EndsAt(step, start, m, r) && EndsAt(step, start, n, s)
    ensures m == n && r == s
  {
    if m < n {
      AfterPrefix(step, start, m + 1, n);
    } else if n < m {
      AfterPrefix(step, start, n + 1, m);
    }
  }

  /**
   The bounded loop with a visited set. The set changes nothing but the running time: the
   answer is the chain's own result exactly when the bare chain ends within the bound.
   */
  method FollowChain<T(==, !new), R(!new)>(step: T -> Hop<T, R>, start: T, maxDepth: nat) returns (r: Option<R>)
    ensures forall n: nat, s :: n < maxDepth && EndsAt(step, start, n, s) ==> r == Some(s)
    ensures r.Some? ==> exists n: nat :: n < maxDepth && EndsAt(step, start, n, r.value)
  {
    var current := start;
    var visited: set<T> := {};
    for i := 0 to maxDepth
      invariant After(step, start, i) == Some(current)
      invariant forall q :: q in visited ==> exists k: nat :: k < i && After(step, start, k) == Some(q)
      invariant forall n: nat, s :: n < i ==> !EndsAt(step, start, n, s)
    {
      if current in visited {
        ghost var k: nat :| k < i && After(step, start, k) == Some(current);
        forall n: nat, s ensures !EndsAt(step, start, n, s) {
          RevisitNeverEnds(step, start, k, i, n, s);
        }
        return None;
      }
      visited := visited + {current};
      var hop := step(current);
      if hop.Stop? {
        assert EndsAt(step, start, i, hop.result);
        EndsHere(step, start, i, hop.result);
        return Some(hop.result);
      }
      assert After(step, start, i + 1) == Some(hop.to);
      current := hop.to;
    }
    return None;
  }

  /** What a chain ends with at its n-th place is all it ever ends with. */
  lemma EndsHere<T, R(!new)>(step: T -> Hop<T, R>, start: T, n: nat, r: R)
    requires EndsAt(step, start, n, r)
    ensures forall m: nat, s :: EndsAt(step, start, m, s) ==> m == n && s == r
  {
    forall m: nat, s | EndsAt(step, start, m, s) ensures m == n && s == r { EndsOnce(step, start, n, r, m, s); }
  }

  /** A chain with an n-th place has not ended before it. */
  lemma NotYetEnded<T, R(!new)>(step: T -> Hop<T, R>, start: T, n: nat)
    requires After(step, start, n).Some?
    ensures forall m: nat, s :: m < n ==> !EndsAt(step, start, m, s)
  {
    forall m: nat, s | m < n ensures !EndsAt(step, start, m, s) { AfterPrefix(step, start, m + 1, n); }
  }

  lemma {:induction false} AfterCompose<T, R>(step: T -> Hop<T, R>, start: T, m: nat, n: nat)
    requires After(step, start, m).Some?
    ensures After(step, start, m + n) == After(step, After(step, start, m).value, n)
  {
    if n > 0 { AfterCompose(step, start, m, n - 1); }
  }

  /** How a chain ends is how it ends from any of its places. */
  lemma EndsShift<T, R>(step: T -> Hop<T, R>, start: T, m: nat, n: nat, r: R)
    requires After(step, start, m).Some?
    ensures EndsAt(step, start, m + n, r) <==> EndsAt(step, After(step, start, m).value, n, r)
  {
    AfterCompose(step, start, m, n);
  }

  /** Places with the same step have the same end. */
  lemma SameStep<T, R>(step: T -> Hop<T, R>, a: T, b: T, n: nat, r: R)
    requires step(a) == step(b)
    ensures EndsAt(step, a, n, r) <==> EndsAt(step, b, n, r)
  {
    if n > 0 {
      if step(a).Follow? {
        OneHop(step, a, step(a).to, n - 1, r);
        OneHop(step, b, step(b).to, n - 1, r);
      } else {
        NoHop(step, a, n);
        NoHop(step, b, n);
      }
    }
  }

  lemma OneHop<T, R>(step: T -> Hop<T, R>, a: T, b: T, n: nat, r: R)
    requires step(a) == Follow(b)
    ensures EndsAt(step, a, n + 1, r) <==> EndsAt(step, b, n, r)
  {
    assert After(step, a, 0) == Some(a) && After(step, a, 1) == Some(b);
    EndsShift(step, a, 1, n, r);
  }

  lemma {:induction false} NoHop<T, R>(step: T -> Hop<T, R>, a: T, n: nat)
    requires step(a).Stop? && n > 0
    ensures After(step, a, n).None?
  {
    if n > 1 { NoHop(step, a, n - 1); } else { assert After(step, a, 0) == Some(a); }
  }

  /** A change of places that every hop respects, every chain respects. */
  lemma {:induction false} AfterMap<T(!new), R>(step: T -> Hop<T, R>, f: T -> T, start: T, n: nat)
    requires forall a, b :: step(a) == Follow(b) ==> step(f(a)) == Follow(f(b))
    requires After(step, start, n).Some?
    ensures After(step, f(start), n) == Some(f(After(step, start, n).value))
  {
    if n > 0 { AfterMap(step, f, start, n - 1); }
  }
}
