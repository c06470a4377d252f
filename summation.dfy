/** Sums of a real-valued term over a finite set of keys, independent of any
    iteration order. The similarity loops of the recommenders add up terms in
    `Object.keys` order; with exact reals the order does not matter, so their
    specifications use these order-free sums. */
module Summation {

  /** Some element of a non-empty set. */
  ghost function Pick<K>(s: set<K>): (k: K)
    requires s != {}
    ensures k in s
  {
    var k :| k in s; k
  }

  /** Some element of a non-empty set, for a loop that visits a set's
      elements in no particular order. */
  method Choose<K>(s: set<K>) returns (k: K)
    requires s != {}
    ensures k in s
  {
    k :| k in s;
  }

  /** The sum of `f(k)` over all `k` in `s`. */
  ghost function SumOver<K>(s: set<K>, f: K -> real): real
    decreases |s|
  {
    if s == {} then 0.0 else f(Pick(s)) + SumOver(s - {Pick(s)}, f)
  }

  /** Any element may be taken out of the sum first. */
  lemma {:induction false} SumOverRemove<K>(s: set<K>, x: K, f: K -> real)
    requires x in s
    ensures SumOver(s, f) == f(x) + SumOver(s - {x}, f)
    decreases |s|
  {
    var y := Pick(s);
    if y != x {
      SumOverRemove(s - {y}, x, f);
      SumOverRemove(s - {x}, y, f);
      assert s - {y} - {x} == s - {x} - {y};
    }
  }

  /** Terms that agree on the set give the same sum. */
  lemma {:induction false} SumOverExt<K>(s: set<K>, f: K -> real, g: K -> real)
    requires forall k :: k in s ==> f(k) == g(k)
    ensures SumOver(s, f) == SumOver(s, g)
    decreases |s|
  {
    if s != {} {
      SumOverExt(s - {Pick(s)}, f, g);
    }
  }

  /** A sum over a set splits into a sum over a subset and one over the rest. */
  lemma {:induction false} SumOverSplit<K>(s: set<K>, t: set<K>, f: K -> real)
    requires t <= s
    ensures SumOver(s, f) == SumOver(t, f) + SumOver(s - t, f)
    decreases |t|
  {
    if t == {} {
      assert s - t == s;
    } else {
      var x := Pick(t);
      SumOverRemove(s, x, f);
      SumOverRemove(t, x, f);
      SumOverSplit(s - {x}, t - {x}, f);
      assert (s - {x}) - (t - {x}) == s - t;
    }
  }

  /** Non-negative terms give a non-negative sum. */
  lemma {:induction false} SumOverNonNegative<K>(s: set<K>, f: K -> real)
    requires forall k :: k in s ==> f(k) >= 0.0
    ensures SumOver(s, f) >= 0.0
    decreases |s|
  {
    if s != {} {
      SumOverNonNegative(s - {Pick(s)}, f);
    }
  }

  /** Positive terms over a non-empty set give a positive sum. */
  lemma {:induction false} SumOverPositive<K>(s: set<K>, f: K -> real)
    requires s != {}
    requires forall k :: k in s ==> f(k) > 0.0
    ensures SumOver(s, f) > 0.0
    decreases |s|
  {
    SumOverNonNegative(s - {Pick(s)}, f);
  }

  /** A sum of zero terms is zero. */
  lemma {:induction false} SumOverZero<K>(s: set<K>, f: K -> real)
    requires forall k :: k in s ==> f(k) == 0.0
    ensures SumOver(s, f) == 0.0
    decreases |s|
  {
    if s != {} {
      SumOverZero(s - {Pick(s)}, f);
    }
  }

  /** A sum of one term. */
  lemma SumOverSingleton<K>(x: K, f: K -> real)
    ensures SumOver({x}, f) == f(x)
  {
    SumOverRemove({x}, x, f);
  }
}
