/**
 * Weighted means over (value, weight) pairs. Both the centroid defuzzification of the fuzzy
 * scorer and the contextual modifier are a ratio of this shape: the sum of value times
 * weight over the sum of the weights.
 */
module Means {

  /** The sum of value * weight, accumulated left to right. */
  function WeightedSum(ps: seq<(real, real)>): real
  {
    if |ps| == 0 then 0.0
    else WeightedSum(ps[..|ps| - 1]) + ps[|ps| - 1].0 * ps[|ps| - 1].1
  }

  /** The sum of the weights, accumulated left to right. */
  function WeightTotal(ps: seq<(real, real)>): real
  {
    if |ps| == 0 then 0.0
    else WeightTotal(ps[..|ps| - 1]) + ps[|ps| - 1].1
  }

  ghost predicate NonNegativeWeights(ps: seq<(real, real)>)
  {
    forall i :: 0 <= i < |ps| ==> 0.0 <= ps[i].1
  }

  ghost predicate ValuesWithin(ps: seq<(real, real)>, lo: real, hi: real)
  {
    forall i :: 0 <= i < |ps| ==> lo <= ps[i].0 <= hi
  }

  lemma ProductMonotone(v: real, lo: real, hi: real, w: real)
    requires lo <= v <= hi && 0.0 <= w
    ensures lo * w <= v * w <= hi * w
  {
    assert (v - lo) * w >= 0.0;
    assert (hi - v) * w >= 0.0;
  }

  /** With non-negative weights, the weight total is non-negative. */
  lemma {:induction false} WeightTotalNonNegative(ps: seq<(real, real)>)
    requires NonNegativeWeights(ps)
    ensures 0.0 <= WeightTotal(ps)
  {
    if |ps| > 0 {
      WeightTotalNonNegative(ps[..|ps| - 1]);
    }
  }

  /** With non-negative weights and values at least lo, the weighted sum is at least lo times the total. */
  lemma {:induction false} WeightedSumAtLeast(ps: seq<(real, real)>, lo: real)
    requires NonNegativeWeights(ps)
    requires forall i :: 0 <= i < |ps| ==> lo <= ps[i].0
    ensures lo * WeightTotal(ps) <= WeightedSum(ps)
  {
    if |ps| > 0 {
      var init, last := ps[..|ps| - 1], ps[|ps| - 1];
      WeightedSumAtLeast(init, lo);
      LowerStep(WeightedSum(init), WeightTotal(init), last.0, last.1, WeightedSum(ps), WeightTotal(ps), lo);
    }
  }

  /** With non-negative weights and values at most hi, the weighted sum is at most hi times the total. */
  lemma {:induction false} WeightedSumAtMost(ps: seq<(real, real)>, hi: real)
    requires NonNegativeWeights(ps)
    requires forall i :: 0 <= i < |ps| ==> ps[i].0 <= hi
    ensures WeightedSum(ps) <= hi * WeightTotal(ps)
  {
    if |ps| > 0 {
      var init, last := ps[..|ps| - 1], ps[|ps| - 1];
      WeightedSumAtMost(init, hi);
      UpperStep(WeightedSum(init), WeightTotal(init), last.0, last.1, WeightedSum(ps), WeightTotal(ps), hi);
    }
  }

  lemma LowerStep(a: real, t: real, v: real, w: real, sum: real, total: real, lo: real)
    requires lo * t <= a && lo <= v && 0.0 <= w
    requires sum == a + v * w && total == t + w
    ensures lo * total <= sum
  {
    assert (v - lo) * w >= 0.0;
  }

  lemma UpperStep(a: real, t: real, v: real, w: real, sum: real, total: real, hi: real)
    requires a <= hi * t && v <= hi && 0.0 <= w
    requires sum == a + v * w && total == t + w
    ensures sum <= hi * total
  {
    assert (hi - v) * w >= 0.0;
  }

  /** With non-negative weights, the weighted sum lies between lo and hi times the weight total. */
  lemma WeightedSumBounds(ps: seq<(real, real)>, lo: real, hi: real)
    requires NonNegativeWeights(ps) && ValuesWithin(ps, lo, hi)
    ensures 0.0 <= WeightTotal(ps)
    ensures lo * WeightTotal(ps) <= WeightedSum(ps) <= hi * WeightTotal(ps)
  {
    WeightTotalNonNegative(ps);
    WeightedSumAtLeast(ps, lo);
    WeightedSumAtMost(ps, hi);
  }

  /** A weighted mean with non-negative weights lies between the least and the greatest value. */
  lemma MeanBetween(ps: seq<(real, real)>, lo: real, hi: real)
    requires NonNegativeWeights(ps) && ValuesWithin(ps, lo, hi)
    requires WeightTotal(ps) != 0.0
    ensures lo <= WeightedSum(ps) / WeightTotal(ps) <= hi
  {
    var sum, total := WeightedSum(ps), WeightTotal(ps);
    WeightedSumBounds(ps, lo, hi);
    QuotientBetween(sum, total, lo, hi);
  }

  lemma QuotientBetween(s: real, t: real, lo: real, hi: real)
    requires 0.0 < t && lo * t <= s <= hi * t
    ensures lo <= s / t <= hi
  {
    var q := s / t;
    assert q * t == s;
    if q < lo {
      ProductStrict(q, lo, t);
    }
    if q > hi {
      ProductStrict(hi, q, t);
    }
  }

  lemma ProductStrict(a: real, b: real, t: real)
    requires a < b && 0.0 < t
    ensures a * t < b * t
  {
    assert (b - a) * t > 0.0;
  }

  /** When every weight is zero, the weight total is zero. */
  lemma {:induction false} ZeroWeightsZeroTotal(ps: seq<(real, real)>)
    requires forall i :: 0 <= i < |ps| ==> ps[i].1 == 0.0
    ensures WeightTotal(ps) == 0.0
  {
    if |ps| > 0 {
      var init := ps[..|ps| - 1];
      ZeroWeightsZeroTotal(init);
    }
  }
}
