/**
 * The contextual risk modifier: the weight-averaged modifier of the choices a vendor selected
 * in the contextual questionnaire, and the adjustment base * (1 + modifier) it makes to the
 * risk score. Two variants exist: the one of the risk calculation, and the one the
 * contextual questionnaire view stores at submission, which also divides each weighted
 * modifier by 100.
 */
module Contextual {
  import opened Wrappers
  import opened Models
  import Means

  /**
   * Why a modifier could not be computed. The calculation wraps every failure other than a
   * missing submitted questionnaire into one generic error, whose cause is kept here.
   */
  datatype ModifierError = NotCompleted | CalculationFailed(cause: FailureCause)

  datatype FailureCause = SeveralSubmitted | InvalidWeights

  /** The (modifier, weight) pairs of the responses, in response order. */
  function Pairs(rs: seq<ContextualResponse>): (ps: seq<(real, real)>)
    ensures |ps| == |rs|
    ensures forall i :: 0 <= i < |rs| ==> ps[i] == (rs[i].modifier, rs[i].weight)
  {
    if |rs| == 0 then [] else Pairs(rs[..|rs| - 1]) + [(rs[|rs| - 1].modifier, rs[|rs| - 1].weight)]
  }

  /** The sum of modifier * weight. */
  function ModifierSum(rs: seq<ContextualResponse>): real
  {
    Means.WeightedSum(Pairs(rs))
  }

  /** The sum of the question weights. */
  function WeightSum(rs: seq<ContextualResponse>): real
  {
    Means.WeightTotal(Pairs(rs))
  }

  /** The weighted mean of the modifiers of one questionnaire's responses. */
  function ModifierMean(rs: seq<ContextualResponse>): (r: Result<real, ModifierError>)
    ensures r.Err? <==> WeightSum(rs) == 0.0
    ensures r.Err? ==> r.error == CalculationFailed(InvalidWeights)
    ensures r.Ok? ==> r.value * WeightSum(rs) == ModifierSum(rs)
  {
    if WeightSum(rs) == 0.0 then Err(CalculationFailed(InvalidWeights))
    else Ok(ModifierSum(rs) / WeightSum(rs))
  }

  /**
   * The modifier of the risk calculation, given the response lists of the vendor's contextual
   * questionnaires whose status is Submitted: none is "not completed", more than one is a
   * failure of the single-row lookup, and one is averaged.
   */
  function ContextualModifier(submitted: seq<seq<ContextualResponse>>): (r: Result<real, ModifierError>)
    ensures r == Err(NotCompleted) <==> |submitted| == 0
    ensures |submitted| > 1 ==> r == Err(CalculationFailed(SeveralSubmitted))
    ensures |submitted| == 1 ==> r == ModifierMean(submitted[0])
  {
    if |submitted| == 0 then Err(NotCompleted)
    else if |submitted| > 1 then Err(CalculationFailed(SeveralSubmitted))
    else ModifierMean(submitted[0])
  }

  /** One step of both accumulators over one more response. */
  lemma AccumulateStep(rs: seq<ContextualResponse>, k: nat, sum: real, total: real, nextSum: real, nextTotal: real)
    requires k < |rs|
    requires sum == ModifierSum(rs[..k]) && total == WeightSum(rs[..k])
    requires nextSum == sum + rs[k].modifier * rs[k].weight && nextTotal == total + rs[k].weight
    ensures nextSum == ModifierSum(rs[..k + 1]) && nextTotal == WeightSum(rs[..k + 1])
  {
    assert rs[..k + 1][..k] == rs[..k];
  }

  /** The loop of the risk calculation over the responses of the submitted questionnaire. */
  method CalculateContextualModifier(submitted: seq<seq<ContextualResponse>>)
    returns (r: Result<real, ModifierError>)
    ensures r == ContextualModifier(submitted)
  {
    if |submitted| == 0 {
      return Err(NotCompleted);
    }
    if |submitted| > 1 {
      return Err(CalculationFailed(SeveralSubmitted));
    }
    var responses := submitted[0];
    var totalModifier := 0.0;
    var totalWeight := 0.0;
    var k := 0;
    while k < |responses|
      invariant 0 <= k <= |responses|
      invariant totalModifier == ModifierSum(responses[..k]) && totalWeight == WeightSum(responses[..k])
    {
      var response := responses[k];
      var modifier := response.modifier * response.weight;
      var nextModifier, nextWeight := totalModifier + modifier, totalWeight + response.weight;
      AccumulateStep(responses, k, totalModifier, totalWeight, nextModifier, nextWeight);
      totalModifier, totalWeight := nextModifier, nextWeight;
      k := k + 1;
    }
    assert responses[..k] == responses;
    if totalWeight == 0.0 {
      return Err(CalculationFailed(InvalidWeights));
    }
    return Ok(totalModifier / totalWeight);
  }

  /** With non-negative weights, not all zero, the modifier lies between the least and the greatest modifier. */
  lemma ModifierBetween(rs: seq<ContextualResponse>, lo: real, hi: real)
    requires forall i :: 0 <= i < |rs| ==> 0.0 <= rs[i].weight && lo <= rs[i].modifier <= hi
    requires WeightSum(rs) != 0.0
    ensures ModifierMean(rs).Ok? && lo <= ModifierMean(rs).value <= hi
  {
    var ps := Pairs(rs);
    assert Means.NonNegativeWeights(ps) && Means.ValuesWithin(ps, lo, hi);
    Means.MeanBetween(ps, lo, hi);
  }

  /** With positive weights, any response at all makes the weights valid. */
  lemma {:induction false} PositiveWeightsAreValid(rs: seq<ContextualResponse>)
    requires forall i :: 0 <= i < |rs| ==> 0.0 < rs[i].weight
    ensures |rs| > 0 <==> WeightSum(rs) > 0.0
  {
    if |rs| > 0 {
      var init := rs[..|rs| - 1];
      assert Pairs(rs)[..|rs| - 1] == Pairs(init);
      PositiveWeightsAreValid(init);
      if |init| == 0 {
        assert WeightSum(init) == 0.0;
      }
    }
  }

  /** The sum the questionnaire view accumulates: each weighted modifier divided by 100. */
  function ScaledModifierSum(rs: seq<ContextualResponse>): real
  {
    if |rs| == 0 then 0.0 else ScaledModifierSum(rs[..|rs| - 1]) + Scaled(rs[|rs| - 1])
  }

  /** One response's weighted modifier, divided by 100. */
  function Scaled(r: ContextualResponse): real
  {
    r.modifier * r.weight / 100.0
  }

  /** One step of the view's accumulators over one more response. */
  lemma ScaledAccumulateStep(rs: seq<ContextualResponse>, k: nat, sum: real, total: real,
                             nextSum: real, nextTotal: real)
    requires k < |rs|
    requires sum == ScaledModifierSum(rs[..k]) && total == WeightSum(rs[..k])
    requires nextSum == sum + Scaled(rs[k]) && nextTotal == total + rs[k].weight
    ensures nextSum == ScaledModifierSum(rs[..k + 1]) && nextTotal == WeightSum(rs[..k + 1])
  {
    var prefix := rs[..k + 1];
    assert prefix[..k] == rs[..k] && prefix[k] == rs[k];
    WeightSumStep(prefix);
  }

  lemma WeightSumStep(rs: seq<ContextualResponse>)
    requires |rs| > 0
    ensures WeightSum(rs) == WeightSum(rs[..|rs| - 1]) + rs[|rs| - 1].weight
  {
  }

  /** The modifier the contextual questionnaire view stores on submission. */
  function RiskModifier(rs: seq<ContextualResponse>): (r: Result<real, ModifierError>)
    ensures r.Err? <==> WeightSum(rs) == 0.0
    ensures r.Err? ==> r.error == CalculationFailed(InvalidWeights)
    ensures r.Ok? ==> r.value * WeightSum(rs) == ScaledModifierSum(rs)
  {
    if WeightSum(rs) == 0.0 then Err(CalculationFailed(InvalidWeights))
    else Ok(ScaledModifierSum(rs) / WeightSum(rs))
  }

  /** The loop of the questionnaire view over the responses it has just saved. */
  method CalculateRiskModifier(responses: seq<ContextualResponse>) returns (r: Result<real, ModifierError>)
    ensures r == RiskModifier(responses)
  {
    var totalModifier := 0.0;
    var totalWeight := 0.0;
    var k := 0;
    while k < |responses|
      invariant 0 <= k <= |responses|
      invariant totalModifier == ScaledModifierSum(responses[..k]) && totalWeight == WeightSum(responses[..k])
    {
      var response := responses[k];
      var weightedModifier := response.modifier * response.weight / 100.0;
      assert weightedModifier == Scaled(response);
      var nextModifier, nextWeight := totalModifier + weightedModifier, totalWeight + response.weight;
      ScaledAccumulateStep(responses, k, totalModifier, totalWeight, nextModifier, nextWeight);
      totalModifier, totalWeight := nextModifier, nextWeight;
      k := k + 1;
    }
    assert responses[..k] == responses;
    if totalWeight == 0.0 {
      return Err(CalculationFailed(InvalidWeights));
    }
    return Ok(totalModifier / totalWeight);
  }

  /** Dividing every term by 100 divides the sum by 100. */
  lemma {:induction false} ScaledSumIsHundredth(rs: seq<ContextualResponse>)
    ensures ScaledModifierSum(rs) == ModifierSum(rs) / 100.0
  {
    if |rs| > 0 {
      var n := |rs| - 1;
      var init := rs[..n];
      assert Pairs(rs)[..n] == Pairs(init);
      ScaledSumIsHundredth(init);
      var product := rs[n].modifier * rs[n].weight;
      assert ModifierSum(rs) == ModifierSum(init) + product;
      assert Scaled(rs[n]) == product / 100.0;
      HundredthOfSum(ModifierSum(init), product);
    }
  }

  lemma HundredthOfSum(a: real, b: real)
    ensures (a + b) / 100.0 == a / 100.0 + b / 100.0
  {
  }

  /** The view's modifier is exactly one hundredth of the calculation's, and they fail together. */
  lemma ViewModifierIsHundredth(rs: seq<ContextualResponse>)
    ensures RiskModifier(rs).Err? <==> ModifierMean(rs).Err?
    ensures RiskModifier(rs).Ok? ==> RiskModifier(rs).value == ModifierMean(rs).value / 100.0
  {
    ScaledSumIsHundredth(rs);
    if WeightSum(rs) != 0.0 {
      DivideByHundred(ModifierSum(rs), WeightSum(rs));
    }
  }

  lemma DivideByHundred(s: real, t: real)
    requires t != 0.0
    ensures (s / 100.0) / t == (s / t) / 100.0
  {
  }

  /** The contextual adjustment of the risk calculation. */
  function AdjustedScore(base: real, modifier: real): (r: real)
    ensures modifier == 0.0 ==> r == base
    ensures 0.0 <= base && modifier >= -1.0 ==> 0.0 <= r
  {
    base * (1.0 + modifier)
  }

  /**
   * A non-negative base adjusted by a modifier between lo and hi lands between the base
   * adjusted by lo and by hi; a positive modifier raises a positive base and a negative one
   * lowers it.
   */
  lemma AdjustedScoreBetween(base: real, modifier: real, lo: real, hi: real)
    requires 0.0 <= base && lo <= modifier <= hi
    ensures AdjustedScore(base, lo) <= AdjustedScore(base, modifier) <= AdjustedScore(base, hi)
    ensures 0.0 < base && 0.0 < modifier ==> AdjustedScore(base, modifier) > base
    ensures 0.0 < base && modifier < 0.0 ==> AdjustedScore(base, modifier) < base
  {
    assert base * (modifier - lo) >= 0.0;
    assert base * (hi - modifier) >= 0.0;
    if 0.0 < base && 0.0 < modifier {
      assert base * modifier > 0.0;
    }
    if 0.0 < base && modifier < 0.0 {
      assert base * (0.0 - modifier) > 0.0;
    }
  }
}
