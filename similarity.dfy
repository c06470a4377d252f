/** Cosine similarity and Pearson correlation over sparse vectors, as
    `collaborative-filtering.service.ts` computes them for integer-keyed
    user and item vectors and `content-based.service.ts` (the same cosine
    code, repeated) for string-keyed feature vectors. The key type is a
    parameter here.

    `Math.sqrt` is a foreign function: every operation takes it as the
    parameter `sqrt`, and the lemmas that need its meaning require
    `IsSqrt(sqrt)`. */
module Similarity {
  import opened Summation

  /** What `Math.sqrt` promises on the non-negative reals: the non-negative
      square root, which at zero is zero. */
  ghost predicate IsSqrt(sqrt: real -> real)
  {
    && sqrt(0.0) == 0.0
    && forall x :: x >= 0.0 ==> sqrt(x) >= 0.0 && sqrt(x) * sqrt(x) == x
  }

  function DotTerm<K>(v1: map<K, real>, v2: map<K, real>): K -> real
  {
    k => if k in v1 && k in v2 then v1[k] * v2[k] else 0.0
  }

  function SquareTerm<K>(v: map<K, real>): K -> real
  {
    k => if k in v then v[k] * v[k] else 0.0
  }

  /** The dot product, over the keys the two vectors share. */
  ghost function Dot<K>(v1: map<K, real>, v2: map<K, real>): real
  {
    SumOver(v1.Keys * v2.Keys, DotTerm(v1, v2))
  }

  /** The squared Euclidean norm, over every key of the vector. */
  ghost function SquaredNorm<K>(v: map<K, real>): real
  {
    SumOver(v.Keys, SquareTerm(v))
  }

  /** `num / (sqrt(sq1) * sqrt(sq2))`, or 0 when that denominator is 0: the
      last line of both similarity measures. */
  function Ratio(num: real, sq1: real, sq2: real, sqrt: real -> real): real
  {
    var den := sqrt(sq1) * sqrt(sq2);
    if den == 0.0 then 0.0 else num / den
  }

  /** The value `cosineSimilarity` returns: zero when no key is shared or the
      denominator vanishes, otherwise the dot product over the shared keys
      divided by the product of the norms taken over all keys of each vector. */
  ghost function Cosine<K>(v1: map<K, real>, v2: map<K, real>, sqrt: real -> real): real
  {
    if v1.Keys * v2.Keys == {} then 0.0
    else Ratio(Dot(v1, v2), SquaredNorm(v1), SquaredNorm(v2), sqrt)
  }

  /** The first loop of `cosineSimilarity`, over the shared keys. */
  method SharedSums<K(==)>(v1: map<K, real>, v2: map<K, real>) returns (dot: real, norm1: real, norm2: real)
    ensures dot == SumOver(v1.Keys * v2.Keys, DotTerm(v1, v2))
    ensures norm1 == SumOver(v1.Keys * v2.Keys, SquareTerm(v1))
    ensures norm2 == SumOver(v1.Keys * v2.Keys, SquareTerm(v2))
  {
    var common := v1.Keys * v2.Keys;
    dot, norm1, norm2 := 0.0, 0.0, 0.0;
    var todo := common;
    while todo != {}
      invariant todo <= common
      invariant dot + SumOver(todo, DotTerm(v1, v2)) == SumOver(common, DotTerm(v1, v2))
      invariant norm1 + SumOver(todo, SquareTerm(v1)) == SumOver(common, SquareTerm(v1))
      invariant norm2 + SumOver(todo, SquareTerm(v2)) == SumOver(common, SquareTerm(v2))
      decreases |todo|
    {
      var k :| k in todo;
      SumOverRemove(todo, k, DotTerm(v1, v2));
      SumOverRemove(todo, k, SquareTerm(v1));
      SumOverRemove(todo, k, SquareTerm(v2));
      dot := dot + v1[k] * v2[k];
      norm1 := norm1 + v1[k] * v1[k];
      norm2 := norm2 + v2[k] * v2[k];
      todo := todo - {k};
    }
  }

  /** The second and third loops of `cosineSimilarity`: add the squares of
      the entries at `keys` to `norm`. */
  method AddSquares<K(==)>(v: map<K, real>, keys: set<K>, norm: real) returns (r: real)
    requires keys <= v.Keys
    ensures r == norm + SumOver(keys, SquareTerm(v))
  {
    r := norm;
    var todo := keys;
    while todo != {}
      invariant todo <= keys
      invariant r + SumOver(todo, SquareTerm(v)) == norm + SumOver(keys, SquareTerm(v))
      decreases |todo|
    {
      var k :| k in todo;
      SumOverRemove(todo, k, SquareTerm(v));
      r := r + v[k] * v[k];
      todo := todo - {k};
    }
  }

  /** `cosineSimilarity(vec1, vec2)`. */
  method CosineSimilarity<K(==)>(v1: map<K, real>, v2: map<K, real>, sqrt: real -> real) returns (r: real)
    ensures r == Cosine(v1, v2, sqrt)
  {
    var common := v1.Keys * v2.Keys;
    if common == {} {
      return 0.0;
    }
    var dot, norm1, norm2 := SharedSums(v1, v2);
    norm1 := AddSquares(v1, v1.Keys - common, norm1);
    norm2 := AddSquares(v2, v2.Keys - common, norm2);
    SumOverSplit(v1.Keys, common, SquareTerm(v1));
    SumOverSplit(v2.Keys, common, SquareTerm(v2));
    assert norm1 == SquaredNorm(v1) && norm2 == SquaredNorm(v2);
    r := Ratio(dot, norm1, norm2, sqrt);
  }

  /** Facts about `sqrt` and `Ratio` the lemmas below rely on. */
  lemma MulPositive(a: real, b: real)
    requires a > 0.0 && b > 0.0
    ensures a * b > 0.0
  {
  }

  lemma SquareTermPositive<K>(v: map<K, real>, k: K)
    requires k in v && v[k] > 0.0
    ensures SquareTerm(v)(k) > 0.0
  {
    SquareOfPositive(v[k], SquareTerm(v)(k));
  }

  lemma SquareOfPositive(x: real, y: real)
    requires x > 0.0 && y == x * x
    ensures y > 0.0
  {
    assert y / x == x;
  }

  lemma MulNonNegative(a: real, b: real)
    requires a >= 0.0 && b >= 0.0
    ensures a * b >= 0.0
  {
  }

  lemma DivSelf(q: real)
    requires q != 0.0
    ensures q / q == 1.0
  {
  }

  lemma DivNonNegative(a: real, b: real)
    requires a >= 0.0 && b > 0.0
    ensures a / b >= 0.0
  {
  }

  lemma SqrtOne(sqrt: real -> real)
    requires IsSqrt(sqrt)
    ensures sqrt(1.0) == 1.0
  {
    var s := sqrt(1.0);
    assert s * s == 1.0;
    if s > 1.0 {
      MulPositive(s, s - 1.0);
    }
    if 0.0 < s < 1.0 {
      MulPositive(s, 1.0 - s);
    }
  }

  lemma RatioZero(num: real, sq1: real, sq2: real, sqrt: real -> real)
    requires IsSqrt(sqrt)
    requires sq1 == 0.0 || sq2 == 0.0
    ensures Ratio(num, sq1, sq2, sqrt) == 0.0
  {
  }

  lemma RatioSelf(sq: real, sqrt: real -> real)
    requires IsSqrt(sqrt)
    requires sq > 0.0
    ensures Ratio(sq, sq, sq, sqrt) == 1.0
  {
    assert sqrt(sq) * sqrt(sq) == sq;
    DivSelf(sq);
  }

  lemma RatioNonNegative(num: real, sq1: real, sq2: real, sqrt: real -> real)
    requires IsSqrt(sqrt)
    requires num >= 0.0 && sq1 >= 0.0 && sq2 >= 0.0
    ensures Ratio(num, sq1, sq2, sqrt) >= 0.0
  {
    var a, b := sqrt(sq1), sqrt(sq2);
    MulNonNegative(a, b);
    if a * b != 0.0 {
      DivNonNegative(num, a * b);
    }
  }

  /** Cosine similarity does not depend on the order of its arguments. */
  lemma CosineSymmetric<K>(v1: map<K, real>, v2: map<K, real>, sqrt: real -> real)
    ensures Cosine(v1, v2, sqrt) == Cosine(v2, v1, sqrt)
  {
    assert v1.Keys * v2.Keys == v2.Keys * v1.Keys;
    SumOverExt(v1.Keys * v2.Keys, DotTerm(v1, v2), DotTerm(v2, v1));
    RatioSwap(Dot(v1, v2), SquaredNorm(v1), SquaredNorm(v2), sqrt);
  }

  lemma RatioSwap(num: real, sq1: real, sq2: real, sqrt: real -> real)
    ensures Ratio(num, sq1, sq2, sqrt) == Ratio(num, sq2, sq1, sqrt)
  {
    assert sqrt(sq1) * sqrt(sq2) == sqrt(sq2) * sqrt(sq1);
  }

  /** A vector is at similarity 1 with itself, unless its norm is zero (the
      empty vector among them), when the similarity is 0. */
  lemma CosineSelf<K>(v: map<K, real>, sqrt: real -> real)
    requires IsSqrt(sqrt)
    ensures Cosine(v, v, sqrt) == if SquaredNorm(v) > 0.0 then 1.0 else 0.0
  {
    assert v.Keys * v.Keys == v.Keys;
    SumOverNonNegative(v.Keys, SquareTerm(v));
    if v.Keys != {} {
      SumOverExt(v.Keys, DotTerm(v, v), SquareTerm(v));
      if SquaredNorm(v) > 0.0 {
        RatioSelf(SquaredNorm(v), sqrt);
      } else {
        RatioZero(Dot(v, v), SquaredNorm(v), SquaredNorm(v), sqrt);
      }
    }
  }

  /** A non-empty vector with positive entries is at similarity exactly 1 with itself. */
  lemma CosineSelfPositive<K>(v: map<K, real>, sqrt: real -> real)
    requires IsSqrt(sqrt)
    requires v != map[] && forall k :: k in v ==> v[k] > 0.0
    ensures Cosine(v, v, sqrt) == 1.0
  {
    forall k | k in v.Keys ensures SquareTerm(v)(k) > 0.0 {
      SquareTermPositive(v, k);
    }
    assert v.Keys != {} by {
      var k :| k in v;
    }
    SumOverPositive(v.Keys, SquareTerm(v));
    CosineSelf(v, sqrt);
  }

  /** Similarity with a vector that has only zero entries (the empty vector among them) is 0. */
  lemma CosineZeroVector<K>(v1: map<K, real>, v2: map<K, real>, sqrt: real -> real)
    requires IsSqrt(sqrt)
    requires forall k :: k in v2 ==> v2[k] == 0.0
    ensures Cosine(v1, v2, sqrt) == 0.0
  {
    if v1.Keys * v2.Keys != {} {
      SumOverZero(v2.Keys, SquareTerm(v2));
      RatioZero(Dot(v1, v2), SquaredNorm(v1), SquaredNorm(v2), sqrt);
    }
  }

  /** Vectors with non-negative entries have non-negative similarity. */
  lemma CosineNonNegative<K>(v1: map<K, real>, v2: map<K, real>, sqrt: real -> real)
    requires IsSqrt(sqrt)
    requires forall k :: k in v1 ==> v1[k] >= 0.0
    requires forall k :: k in v2 ==> v2[k] >= 0.0
    ensures Cosine(v1, v2, sqrt) >= 0.0
  {
    if v1.Keys * v2.Keys != {} {
      forall k | k in v1.Keys * v2.Keys ensures DotTerm(v1, v2)(k) >= 0.0 {
        MulNonNegative(v1[k], v2[k]);
      }
      SumOverNonNegative(v1.Keys * v2.Keys, DotTerm(v1, v2));
      SumOverNonNegative(v1.Keys, SquareTerm(v1));
      SumOverNonNegative(v2.Keys, SquareTerm(v2));
      RatioNonNegative(Dot(v1, v2), SquaredNorm(v1), SquaredNorm(v2), sqrt);
    }
  }

  /** The norms run over all keys, not only the shared ones: a key that only
      the second vector has lowers the similarity below 1. */
  lemma CosineCountsUnsharedKeys(sqrt: real -> real)
    requires IsSqrt(sqrt)
    ensures Cosine(map[1 := 1.0], map[1 := 1.0, 2 := 1.0], sqrt) != 1.0
  {
    var v1, v2 := map[1 := 1.0], map[1 := 1.0, 2 := 1.0];
    assert v1.Keys * v2.Keys == {1};
    SumOverSingleton(1, DotTerm(v1, v2));
    SumOverSingleton(1, SquareTerm(v1));
    SumOverRemove(v2.Keys, 2, SquareTerm(v2));
    assert v2.Keys - {2} == {1};
    SumOverSingleton(1, SquareTerm(v2));
    assert SquaredNorm(v2) == 2.0;
    SqrtOne(sqrt);
    var two := sqrt(2.0);
    assert two * two == 2.0;
    assert two != 1.0;
  }

  function ValueTerm<K>(v: map<K, real>): K -> real
  {
    k => if k in v then v[k] else 0.0
  }

  function CenteredProductTerm<K>(v1: map<K, real>, avg1: real, v2: map<K, real>, avg2: real): K -> real
  {
    k => if k in v1 && k in v2 then (v1[k] - avg1) * (v2[k] - avg2) else 0.0
  }

  function CenteredSquareTerm<K>(v: map<K, real>, avg: real): K -> real
  {
    k => if k in v then (v[k] - avg) * (v[k] - avg) else 0.0
  }

  /** The mean of a vector's entries over a non-empty key set. */
  ghost function Mean<K>(v: map<K, real>, keys: set<K>): real
    requires keys != {}
  {
    SumOver(keys, ValueTerm(v)) / (|keys| as real)
  }

  /** The sum of squared deviations from the mean over a non-empty key set. */
  ghost function Variance<K>(v: map<K, real>, keys: set<K>): real
    requires keys != {}
  {
    SumOver(keys, CenteredSquareTerm(v, Mean(v, keys)))
  }

  /** The sum of the products of deviations over a non-empty key set. */
  ghost function Covariance<K>(v1: map<K, real>, v2: map<K, real>, keys: set<K>): real
    requires keys != {}
  {
    SumOver(keys, CenteredProductTerm(v1, Mean(v1, keys), v2, Mean(v2, keys)))
  }

  /** The value `pearsonCorrelation` returns: computed over the shared keys
      only, zero when there are none or the denominator vanishes. */
  ghost function Pearson<K>(v1: map<K, real>, v2: map<K, real>, sqrt: real -> real): real
  {
    var common := v1.Keys * v2.Keys;
    if common == {} then 0.0
    else Ratio(Covariance(v1, v2, common), Variance(v1, common), Variance(v2, common), sqrt)
  }

  /** The two `reduce` calls of `pearsonCorrelation`: the mean over the shared keys. */
  method MeanOver<K(==)>(v: map<K, real>, keys: set<K>) returns (avg: real)
    requires keys != {} && keys <= v.Keys
    ensures avg == Mean(v, keys)
  {
    var sum := 0.0;
    var todo := keys;
    while todo != {}
      invariant todo <= keys
      invariant sum + SumOver(todo, ValueTerm(v)) == SumOver(keys, ValueTerm(v))
      decreases |todo|
    {
      var k :| k in todo;
      SumOverRemove(todo, k, ValueTerm(v));
      sum := sum + v[k];
      todo := todo - {k};
    }
    avg := sum / (|keys| as real);
  }

  /** The loop of `pearsonCorrelation`: covariance and both variances around the given means. */
  method CenteredSums<K(==)>(v1: map<K, real>, avg1: real, v2: map<K, real>, avg2: real)
    returns (covariance: real, variance1: real, variance2: real)
    ensures covariance == SumOver(v1.Keys * v2.Keys, CenteredProductTerm(v1, avg1, v2, avg2))
    ensures variance1 == SumOver(v1.Keys * v2.Keys, CenteredSquareTerm(v1, avg1))
    ensures variance2 == SumOver(v1.Keys * v2.Keys, CenteredSquareTerm(v2, avg2))
  {
    var common := v1.Keys * v2.Keys;
    covariance, variance1, variance2 := 0.0, 0.0, 0.0;
    var todo := common;
    while todo != {}
      invariant todo <= common
      invariant covariance + SumOver(todo, CenteredProductTerm(v1, avg1, v2, avg2))
             == SumOver(common, CenteredProductTerm(v1, avg1, v2, avg2))
      invariant variance1 + SumOver(todo, CenteredSquareTerm(v1, avg1)) == SumOver(common, CenteredSquareTerm(v1, avg1))
      invariant variance2 + SumOver(todo, CenteredSquareTerm(v2, avg2)) == SumOver(common, CenteredSquareTerm(v2, avg2))
      decreases |todo|
    {
      var k :| k in todo;
      SumOverRemove(todo, k, CenteredProductTerm(v1, avg1, v2, avg2));
      SumOverRemove(todo, k, CenteredSquareTerm(v1, avg1));
      SumOverRemove(todo, k, CenteredSquareTerm(v2, avg2));
      // diff1 * diff2, diff1 * diff1 and diff2 * diff2 of the source
      covariance := covariance + CenteredProductTerm(v1, avg1, v2, avg2)(k);
      variance1 := variance1 + CenteredSquareTerm(v1, avg1)(k);
      variance2 := variance2 + CenteredSquareTerm(v2, avg2)(k);
      todo := todo - {k};
    }
  }

  /** `pearsonCorrelation(vec1, vec2)`. */
  method PearsonCorrelation<K(==)>(v1: map<K, real>, v2: map<K, real>, sqrt: real -> real) returns (r: real)
    ensures r == Pearson(v1, v2, sqrt)
  {
    var common := v1.Keys * v2.Keys;
    if common == {} {
      return 0.0;
    }
    var avg1 := MeanOver(v1, common);
    var avg2 := MeanOver(v2, common);
    var covariance, variance1, variance2 := CenteredSums(v1, avg1, v2, avg2);
    r := Ratio(covariance, variance1, variance2, sqrt);
  }

  /** A vector restricted to a set of keys. */
  function Restrict<K>(v: map<K, real>, keys: set<K>): (r: map<K, real>)
    ensures r.Keys == v.Keys * keys
    ensures forall k :: k in r ==> r[k] == v[k]
  {
    map k | k in v && k in keys :: v[k]
  }

  /** Two vectors that agree on every key of `keys`. */
  ghost predicate AgreeOn<K>(v: map<K, real>, w: map<K, real>, keys: set<K>)
  {
    forall k :: k in keys ==> k in v && k in w && v[k] == w[k]
  }

  lemma MeanAgree<K>(v: map<K, real>, w: map<K, real>, keys: set<K>)
    requires keys != {} && AgreeOn(v, w, keys)
    ensures Mean(v, keys) == Mean(w, keys)
  {
    SumOverExt(keys, ValueTerm(v), ValueTerm(w));
  }

  lemma VarianceAgree<K>(v: map<K, real>, w: map<K, real>, keys: set<K>)
    requires keys != {} && AgreeOn(v, w, keys)
    ensures Variance(v, keys) == Variance(w, keys)
  {
    MeanAgree(v, w, keys);
    var avg := Mean(v, keys);
    SumOverExt(keys, CenteredSquareTerm(v, avg), CenteredSquareTerm(w, avg));
  }

  lemma CovarianceAgree<K>(v1: map<K, real>, w1: map<K, real>, v2: map<K, real>, w2: map<K, real>, keys: set<K>)
    requires keys != {} && AgreeOn(v1, w1, keys) && AgreeOn(v2, w2, keys)
    ensures Covariance(v1, v2, keys) == Covariance(w1, w2, keys)
  {
    MeanAgree(v1, w1, keys);
    MeanAgree(v2, w2, keys);
    var avg1, avg2 := Mean(v1, keys), Mean(v2, keys);
    SumOverExt(keys, CenteredProductTerm(v1, avg1, v2, avg2), CenteredProductTerm(w1, avg1, w2, avg2));
  }

  /** Pearson correlation looks only at the shared keys: dropping every other
      entry of either vector leaves it unchanged. */
  lemma PearsonUsesSharedKeysOnly<K>(v1: map<K, real>, v2: map<K, real>, sqrt: real -> real)
    ensures Pearson(v1, v2, sqrt)
         == Pearson(Restrict(v1, v1.Keys * v2.Keys), Restrict(v2, v1.Keys * v2.Keys), sqrt)
  {
    var common := v1.Keys * v2.Keys;
    var w1, w2 := Restrict(v1, common), Restrict(v2, common);
    assert w1.Keys * w2.Keys == common;
    if common != {} {
      VarianceAgree(v1, w1, common);
      VarianceAgree(v2, w2, common);
      CovarianceAgree(v1, w1, v2, w2, common);
    }
  }

  /** Vectors that share exactly one key are uncorrelated: each variance is zero. */
  lemma PearsonSingleSharedKey<K>(v1: map<K, real>, v2: map<K, real>, sqrt: real -> real)
    requires IsSqrt(sqrt)
    requires |v1.Keys * v2.Keys| == 1
    ensures Pearson(v1, v2, sqrt) == 0.0
  {
    var common := v1.Keys * v2.Keys;
    var k := Pick(common);
    assert common == {k} by {
      assert |common - {k}| == 0;
    }
    SumOverSingleton(k, ValueTerm(v1));
    assert Mean(v1, common) == v1[k];
    SumOverSingleton(k, CenteredSquareTerm(v1, v1[k]));
    RatioZero(Covariance(v1, v2, common), Variance(v1, common), Variance(v2, common), sqrt);
  }
}
