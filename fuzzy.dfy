/**
 * The fuzzy-logic part of the risk engine: triangular and trapezoidal membership functions,
 * the five risk levels over the 0-10 score axis, and centroid defuzzification.
 */
module Fuzzy {
  import Means

  /**
   * Triangular membership of x for feet a, c and peak b. A degenerate triangle (a == b or
   * b == c) has membership 0 everywhere.
   */
  function Triangular(x: real, a: real, b: real, c: real): (m: real)
    ensures a == b || b == c ==> m == 0.0
    ensures x <= a || x >= c ==> m == 0.0
    ensures a < b < c ==> 0.0 <= m <= 1.0
    ensures a < b < c ==> (0.0 < m <==> a < x < c)
    ensures a < b < c && x == b ==> m == 1.0
  {
    if a == b || b == c then 0.0
    else if x <= a || x >= c then 0.0
    else if a < x <= b then (x - a) / (b - a)
    else (c - x) / (c - b)
  }

  /**
   * Trapezoidal membership of x rising from a to b, flat from b to c and falling from c to d.
   * A trapezoid with a == b or c == d has membership 0 everywhere, which includes the two
   * shoulders of the level table below.
   */
  function Trapezoidal(x: real, a: real, b: real, c: real, d: real): (m: real)
    ensures a == b || c == d ==> m == 0.0
    ensures x <= a || x >= d ==> m == 0.0
    ensures a < b <= c < d ==> 0.0 <= m <= 1.0
    ensures a < b <= c < d ==> (0.0 < m <==> a < x < d)
    ensures a < b <= c < d && b <= x <= c ==> m == 1.0
  {
    if a == b || c == d then 0.0
    else if x <= a || x >= d then 0.0
    else if b <= x <= c then 1.0
    else if a < x < b then (x - a) / (b - a)
    else (d - x) / (d - c)
  }

  /** Very low, low, moderate, high and very high risk. */
  datatype Level = VLR | LR | MR | HR | VHR

  /** The membership function of each level, with the system's fixed parameters. */
  function Membership(level: Level, x: real): (m: real)
    ensures 0.0 <= m <= 1.0
  {
    match level
    case VLR => Trapezoidal(x, 8.0, 9.0, 10.0, 10.0)
    case LR => Triangular(x, 6.0, 7.5, 9.0)
    case MR => Triangular(x, 3.0, 5.0, 7.0)
    case HR => Triangular(x, 1.0, 2.5, 4.0)
    case VHR => Trapezoidal(x, 0.0, 0.0, 1.0, 2.0)
  }

  /**
   * As parameterised, the very-low-risk trapezoid has c == d and the very-high-risk one
   * a == b, so both take the degenerate branch and never fire.
   */
  lemma ShoulderLevelsNeverFire(x: real)
    ensures Membership(VLR, x) == 0.0 && Membership(VHR, x) == 0.0
  {
  }

  /**
   * A numeric representative point per level. The source pairs each membership with the
   * level's label rather than with a number, so the model takes the points as a parameter.
   */
  datatype LevelPoints = LevelPoints(vlr: real, lr: real, mr: real, hr: real, vhr: real)

  /** The centroid points the level table was designed around, used in the examples. */
  const CentroidPoints: LevelPoints := LevelPoints(9.0, 7.5, 5.0, 2.5, 1.0)

  ghost predicate PointsWithin(p: LevelPoints, lo: real, hi: real)
  {
    && lo <= p.vlr <= hi && lo <= p.lr <= hi && lo <= p.mr <= hi
    && lo <= p.hr <= hi && lo <= p.vhr <= hi
  }

  /** The (point, membership) pairs of a score, in the level order of the source's dict. */
  function FuzzyValues(p: LevelPoints, x: real): (ps: seq<(real, real)>)
    ensures |ps| == 5
    ensures Means.NonNegativeWeights(ps)
    ensures forall lo, hi :: PointsWithin(p, lo, hi) ==> Means.ValuesWithin(ps, lo, hi)
  {
    [(p.vlr, Membership(VLR, x)), (p.lr, Membership(LR, x)), (p.mr, Membership(MR, x)),
     (p.hr, Membership(HR, x)), (p.vhr, Membership(VHR, x))]
  }

  /**
   * Centroid defuzzification over (point, membership) pairs: the membership-weighted mean of
   * the points, or 0 when the memberships sum to 0.
   */
  function Defuzzify(ps: seq<(real, real)>): (r: real)
    ensures Means.WeightTotal(ps) == 0.0 ==> r == 0.0
    ensures Means.WeightTotal(ps) != 0.0 ==> r * Means.WeightTotal(ps) == Means.WeightedSum(ps)
  {
    var denominator := Means.WeightTotal(ps);
    if denominator != 0.0 then Means.WeightedSum(ps) / denominator else 0.0
  }

  /** With non-negative memberships, a defuzzified value lies between the least and greatest point. */
  lemma DefuzzifyBetween(ps: seq<(real, real)>, lo: real, hi: real)
    requires Means.NonNegativeWeights(ps) && Means.ValuesWithin(ps, lo, hi)
    requires Means.WeightTotal(ps) != 0.0
    ensures lo <= Defuzzify(ps) <= hi
  {
    Means.MeanBetween(ps, lo, hi);
  }

  /** The crisp score of a manual score x. */
  function CrispScore(p: LevelPoints, x: real): real
  {
    Defuzzify(FuzzyValues(p, x))
  }

  /** Some level fires exactly on the open interval (1, 9) of the score axis. */
  lemma MembershipSupport(p: LevelPoints, x: real)
    ensures Means.WeightTotal(FuzzyValues(p, x)) != 0.0 <==> 1.0 < x < 9.0
  {
    FiveLevelSums(FuzzyValues(p, x));
  }

  /** Unfolds both sums of a five-level pair sequence. */
  lemma FiveLevelSums(ps: seq<(real, real)>)
    requires |ps| == 5
    ensures Means.WeightTotal(ps) == ps[0].1 + ps[1].1 + ps[2].1 + ps[3].1 + ps[4].1
    ensures Means.WeightedSum(ps)
      == ps[0].0 * ps[0].1 + ps[1].0 * ps[1].1 + ps[2].0 * ps[2].1 + ps[3].0 * ps[3].1 + ps[4].0 * ps[4].1
  {
    var p4, p3, p2, p1 := ps[..4], ps[..3], ps[..2], ps[..1];
    assert p4[..3] == p3 && p3[..2] == p2 && p2[..1] == p1 && p1[..0] == [];
    assert Means.WeightTotal(p1) == ps[0].1 && Means.WeightedSum(p1) == ps[0].0 * ps[0].1;
    assert Means.WeightTotal(p2) == Means.WeightTotal(p1) + ps[1].1;
    assert Means.WeightTotal(p3) == Means.WeightTotal(p2) + ps[2].1;
    assert Means.WeightTotal(p4) == Means.WeightTotal(p3) + ps[3].1;
    assert Means.WeightedSum(p2) == Means.WeightedSum(p1) + ps[1].0 * ps[1].1;
    assert Means.WeightedSum(p3) == Means.WeightedSum(p2) + ps[2].0 * ps[2].1;
    assert Means.WeightedSum(p4) == Means.WeightedSum(p3) + ps[3].0 * ps[3].1;
  }

  /** Outside (1, 9) no level fires and the crisp score falls back to 0, including a score of 10. */
  lemma CrispOutsideSupport(p: LevelPoints, x: real)
    requires x <= 1.0 || 9.0 <= x
    ensures CrispScore(p, x) == 0.0
  {
    MembershipSupport(p, x);
  }

  /**
   * Inside (1, 9) the crisp score is a weighted mean of the points; over the whole axis it lies
   * between the least and greatest point once 0 is counted among them.
   */
  lemma CrispBetweenPoints(p: LevelPoints, x: real, lo: real, hi: real)
    requires PointsWithin(p, lo, hi)
    ensures 1.0 < x < 9.0 ==> lo <= CrispScore(p, x) <= hi
    ensures x <= 1.0 || 9.0 <= x ==> CrispScore(p, x) == 0.0
  {
    MembershipSupport(p, x);
    if 1.0 < x < 9.0 {
      DefuzzifyBetween(FuzzyValues(p, x), lo, hi);
    }
  }

  /** With points on the 0-10 axis, every crisp score is on the 0-10 axis. */
  lemma CrispInRange(p: LevelPoints, x: real)
    requires PointsWithin(p, 0.0, 10.0)
    ensures 0.0 <= CrispScore(p, x) <= 10.0
  {
    CrispBetweenPoints(p, x, 0.0, 10.0);
  }

  /** A manual score at the low-risk peak 7.5 defuzzifies to 7.5 with the centroid points. */
  lemma CrispAtLowRiskPeak()
    ensures CrispScore(CentroidPoints, 7.5) == 7.5
  {
    var ps := FuzzyValues(CentroidPoints, 7.5);
    assert ps == [(9.0, 0.0), (7.5, 1.0), (5.0, 0.0), (2.5, 0.0), (1.0, 0.0)];
    FiveLevelSums(ps);
  }
}
