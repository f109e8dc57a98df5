/**
 * Concrete instances drawn from the seed data of the platform: the contextual question
 * weights and one selection of their choices, the weights of the risk taxonomy, and a
 * sub factor with an unanswered question.
 */
module Witnesses {
  import opened Wrappers
  import opened Models
  import opened Hierarchy
  import Contextual
  import Means

  /**
   * One selection of seeded contextual choices, as (question weight, choice modifier):
   * 1-3 years in service, mission-critical services, regional leader, 2 regions, 10-25 %
   * financial clients, managed service.
   */
  function SampleSelection(): (rs: seq<ContextualResponse>)
    ensures |rs| == 6
  {
    [ ContextualResponse(20.0, 0.10), ContextualResponse(25.0, 0.20), ContextualResponse(15.0, -0.05),
      ContextualResponse(10.0, 0.05), ContextualResponse(20.0, 0.00), ContextualResponse(10.0, -0.10) ]
  }

  /**
   * The seeded weights sum to 100. The sample's modifier is 0.0575, the view stores 0.000575
   * for it, and it raises a combined score of 6 to 6.345.
   */
  lemma SampleModifier()
    ensures Contextual.WeightSum(SampleSelection()) == 100.0
    ensures Contextual.ModifierMean(SampleSelection()) == Ok(0.0575)
    ensures Contextual.RiskModifier(SampleSelection()) == Ok(0.000575)
    ensures Contextual.AdjustedScore(6.0, 0.0575) == 6.345
  {
    var rs := SampleSelection();
    var ps := Contextual.Pairs(rs);
    assert ps == [(0.10, 20.0), (0.20, 25.0), (-0.05, 15.0), (0.05, 10.0), (0.00, 20.0), (-0.10, 10.0)];
    assert ps[..1][..0] == [];
    assert Means.WeightTotal(ps[..1]) == 20.0 && Means.WeightedSum(ps[..1]) == 2.0;
    assert ps[..2][..1] == ps[..1];
    assert Means.WeightTotal(ps[..2]) == 45.0 && Means.WeightedSum(ps[..2]) == 7.0;
    assert ps[..3][..2] == ps[..2];
    assert Means.WeightTotal(ps[..3]) == 60.0 && Means.WeightedSum(ps[..3]) == 6.25;
    assert ps[..4][..3] == ps[..3];
    assert Means.WeightTotal(ps[..4]) == 70.0 && Means.WeightedSum(ps[..4]) == 6.75;
    assert ps[..5][..4] == ps[..4];
    assert Means.WeightTotal(ps[..5]) == 90.0 && Means.WeightedSum(ps[..5]) == 6.75;
    assert ps[..6][..5] == ps[..5] && ps[..6] == ps;
    assert Contextual.WeightSum(rs) == 100.0 && Contextual.ModifierSum(rs) == 5.75;
    Contextual.ViewModifierIsHundredth(rs);
  }

  /** The main factors and sub-factor weights of the seeded taxonomy; questions are left empty. */
  function SeedTaxonomy(): (fs: seq<MainRiskFactor>)
    ensures |fs| == 5
  {
    [ MainRiskFactor(1, 0.35, [SubRiskFactor(0.40, []), SubRiskFactor(0.30, []), SubRiskFactor(0.30, [])]),
      MainRiskFactor(2, 0.25, [SubRiskFactor(0.60, []), SubRiskFactor(0.40, [])]),
      MainRiskFactor(3, 0.20, [SubRiskFactor(0.60, []), SubRiskFactor(0.40, [])]),
      MainRiskFactor(4, 0.10, [SubRiskFactor(1.00, [])]),
      MainRiskFactor(5, 0.10, [SubRiskFactor(1.00, [])]) ]
  }

  /** The seeded weights sum to 1 at both levels, so every total over them lies within [0, 10]. */
  lemma SeedTaxonomyWellWeighted(s: Scorer)
    requires ScoresWithin(s)
    ensures WellWeighted(SeedTaxonomy()) && MainWeightTotal(SeedTaxonomy()) == 1.0
    ensures forall i :: 0 <= i < 5 ==> SubWeightTotal(SeedTaxonomy()[i].subFactors) == 1.0
    ensures 0.0 <= Total(s, SeedTaxonomy()) <= 10.0
  {
    var fs := SeedTaxonomy();
    assert fs[..1][..0] == [];
    assert MainWeightTotal(fs[..1]) == 0.35;
    assert fs[..2][..1] == fs[..1];
    assert MainWeightTotal(fs[..2]) == 0.60;
    assert fs[..3][..2] == fs[..2];
    assert MainWeightTotal(fs[..3]) == 0.80;
    assert fs[..4][..3] == fs[..3];
    assert MainWeightTotal(fs[..4]) == 0.90;
    assert fs[..5][..4] == fs[..4] && fs[..5] == fs;
    assert MainWeightTotal(fs) == 1.0;
    ThreeWeights(fs[0].subFactors);
    TwoWeights(fs[1].subFactors);
    TwoWeights(fs[2].subFactors);
    OneWeight(fs[3].subFactors);
    OneWeight(fs[4].subFactors);
    TotalWithinScale(s, fs);
  }

  lemma OneWeight(sfs: seq<SubRiskFactor>)
    requires |sfs| == 1
    ensures SubWeightTotal(sfs) == sfs[0].weight
  {
    assert sfs[..0] == [];
  }

  lemma TwoWeights(sfs: seq<SubRiskFactor>)
    requires |sfs| == 2
    ensures SubWeightTotal(sfs) == sfs[0].weight + sfs[1].weight
  {
    OneWeight(sfs[..1]);
  }

  lemma ThreeWeights(sfs: seq<SubRiskFactor>)
    requires |sfs| == 3
    ensures SubWeightTotal(sfs) == sfs[0].weight + sfs[1].weight + sfs[2].weight
  {
    TwoWeights(sfs[..2]);
  }

  /**
   * A Security Measures sub factor (weight 0.40 in a main factor of weight 0.35) with two
   * Yes/No questions, one answered Yes and one unanswered: the unanswered one keeps its half
   * share, so the question scores 10 * 1/2, and the factor contributes 5 * 0.40 * 0.35 = 0.7.
   */
  lemma MissingAnswerKeepsItsShare()
    ensures Total(Objective(map[1 := RiskAssessmentResponse(Some(true), None, None)]),
                  [MainRiskFactor(1, 0.35, [SubRiskFactor(0.40, [Question(1, YesNo, []), Question(2, YesNo, [])])])])
            == 0.7
  {
    var s := Objective(map[1 := RiskAssessmentResponse(Some(true), None, None)]);
    var qs := [Question(1, YesNo, []), Question(2, YesNo, [])];
    var sf := SubRiskFactor(0.40, qs);
    assert Kinds(s) == {YesNo, MultipleChoice};
    assert qs[..1][..0] == [] && qs[..1] == [qs[0]];
    assert OfTypes(qs[..1], Kinds(s)) == [qs[0]];
    assert OfTypes(qs, Kinds(s)) == qs;
    assert Count(qs[..1]) == 1.0;
    assert Count(qs) == 2.0;
    assert Share(2.0) == 0.5;
    assert QuestionScore(s, qs[0]) == 10.0 && QuestionScore(s, qs[1]) == 0.0;
    assert ShareSum(s, qs[..1], 0.5) == 5.0;
    assert ShareSum(s, qs, 0.5) == 5.0;
    assert SubFactorScore(s, sf) == 5.0;
    var mf := MainRiskFactor(1, 0.35, [sf]);
    assert [sf][..0] == [];
    assert MainFactorScore(s, mf.subFactors) == 2.0;
    assert [mf][..0] == [];
  }
}
