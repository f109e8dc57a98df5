/**
 * The risk calculation task of one risk-assessment questionnaire: the status check, the
 * initial and the manual scores, their combination, the contextual adjustment, the
 * simulation step, and the stored result, all in one transaction.
 *
 * The initial scorer's per-factor contributions are what the combination step reads: the
 * task as written hands it the initial total instead, a number whose lookups raise as soon as
 * there is a main factor. It also stores the per-factor manual map in a numeric column; that
 * column receives the manual total here. Module AsWritten models both steps as written. The
 * simulation is a parameter.
 */
module Pipeline {
  import opened Wrappers
  import opened Models
  import opened Records
  import opened Hierarchy
  import Fuzzy
  import Scoring
  import Workflow
  import Contextual

  datatype CalculationError =
    | InvalidStatus
    | AmbiguousManualScore(question: int)
    | ModifierFailed(cause: Contextual.ModifierError)

  /** The combined score: the initial total plus the manual total. */
  function BaseScore(factors: seq<MainRiskFactor>, responses: map<int, RiskAssessmentResponse>,
                     manual: map<int, real>, points: Fuzzy.LevelPoints): real
  {
    Total(Objective(responses), factors) + Total(Subjective(CrispScores(manual, points)), factors)
  }

  /** The record a successful calculation stores, given the modifier and the simulation. */
  function Expected(factors: seq<MainRiskFactor>, responses: map<int, RiskAssessmentResponse>,
                    manual: map<int, real>, points: Fuzzy.LevelPoints, modifier: real,
                    simulate: real -> (real, real, real)): RiskCalculation
  {
    var base := BaseScore(factors, responses, manual, points);
    var adjusted := Contextual.AdjustedScore(base, modifier);
    var (final, low, high) := simulate(adjusted);
    RiskCalculation(base, Total(Subjective(CrispScores(manual, points)), factors), base, adjusted, final, low, high)
  }

  /**
   * The calculation task, given the manual scores of every review of the questionnaire. It runs
   * only on a questionnaire Under Review. It fails, changing nothing, when two reviews score the
   * same Short Answer or File Upload question of the taxonomy, and then when no single submitted
   * contextual questionnaire with valid weights exists. Otherwise it stores, for this
   * questionnaire, a record holding the combined score, the manual total and the adjusted
   * score, replacing any earlier one, and completes the questionnaire.
   */
  method CalculateRiskAsync(q: RiskAssessmentQuestionnaire, factors: seq<MainRiskFactor>,
                            reviews: seq<map<int, real>>, points: Fuzzy.LevelPoints,
                            contextual: seq<seq<ContextualResponse>>,
                            simulate: real -> (real, real, real), store: CalculationStore)
    returns (r: Outcome<CalculationError>)
    requires DistinctFactorIds(factors) && q.Valid()
    modifies q, store
    ensures q.Valid()
    ensures r.Fail? <==> !Workflow.CanCalculate(old(q.status)) || TaxonomyScoredTwice(reviews, factors)
                         || Contextual.ContextualModifier(contextual).Err?
    ensures !Workflow.CanCalculate(old(q.status)) ==> r == Fail(InvalidStatus)
    ensures Workflow.CanCalculate(old(q.status)) && TaxonomyScoredTwice(reviews, factors) ==>
              r.Fail? && r.error.AmbiguousManualScore? && |ScoresFor(reviews, r.error.question)| > 1
    ensures Workflow.CanCalculate(old(q.status)) && !TaxonomyScoredTwice(reviews, factors)
            && Contextual.ContextualModifier(contextual).Err? ==>
              r == Fail(ModifierFailed(Contextual.ContextualModifier(contextual).error))
    ensures r.Fail? ==> q.status == old(q.status) && store.records == old(store.records)
    ensures r.Pass? ==>
              q.status == Completed
              && store.records == old(store.records)[q.id := Expected(factors, q.responses, SingleScores(reviews), points,
                                                                       Contextual.ContextualModifier(contextual).value, simulate)]
    ensures q.responses == old(q.responses) && q.progress == old(q.progress)
  {
    if !Workflow.CanCalculate(q.status) {
      return Fail(InvalidStatus);
    }
    var calculation := Calculate(factors, q.responses, reviews, points, contextual, simulate);
    if calculation.Err? {
      return Fail(calculation.error);
    }
    store.UpdateOrCreate(q.id, calculation.value);
    q.status := Completed;
    return Pass;
  }

  /**
   * Steps 1 to 3: the initial and the manual per-factor scores and their combination, with
   * the manual total the record keeps beside it, or the question whose manual score is ambiguous.
   */
  method CombinedScore(factors: seq<MainRiskFactor>, responses: map<int, RiskAssessmentResponse>,
                       reviews: seq<map<int, real>>, points: Fuzzy.LevelPoints)
    returns (r: Result<(real, real), Scoring.ManualScoreError>)
    requires DistinctFactorIds(factors)
    ensures r.Err? <==> TaxonomyScoredTwice(reviews, factors)
    ensures r.Err? ==> |ScoresFor(reviews, r.error.question)| > 1
    ensures r.Ok? ==> r.value.0 == BaseScore(factors, responses, SingleScores(reviews), points)
    ensures r.Ok? ==> r.value.1 == Total(ManualScorer(reviews, points), factors)
  {
    var initialScores := Scoring.InitialFactorScores(factors, responses);
    var manualScores := Scoring.ProcessManualScores(factors, reviews, points);
    if manualScores.Err? {
      return Err(manualScores.error);
    }
    var baseScore := Scoring.CombineScores(factors, initialScores, manualScores.value);
    Scoring.CombineOfContributionMaps(factors, responses, CrispScores(SingleScores(reviews), points));
    var manualTotal := Scoring.CombineScores(factors, map[], manualScores.value);
    Scoring.LookupSumOfEmpty(factors);
    LookupSumOfContributionMap(ManualScorer(reviews, points), factors);
    return Ok((baseScore, manualTotal));
  }

  /**
   * Steps 1 to 5 of the task: the initial and the manual per-factor scores, their combination,
   * the contextual adjustment and the simulation, giving the record to store, or the reason the
   * manual scores or the modifier could not be computed, in that order.
   */
  method Calculate(factors: seq<MainRiskFactor>, responses: map<int, RiskAssessmentResponse>,
                   reviews: seq<map<int, real>>, points: Fuzzy.LevelPoints,
                   contextual: seq<seq<ContextualResponse>>, simulate: real -> (real, real, real))
    returns (c: Result<RiskCalculation, CalculationError>)
    requires DistinctFactorIds(factors)
    ensures c.Ok? <==> !TaxonomyScoredTwice(reviews, factors) && Contextual.ContextualModifier(contextual).Ok?
    ensures TaxonomyScoredTwice(reviews, factors) ==>
              c.Err? && c.error.AmbiguousManualScore? && |ScoresFor(reviews, c.error.question)| > 1
    ensures !TaxonomyScoredTwice(reviews, factors) && c.Err? ==>
              c.error == ModifierFailed(Contextual.ContextualModifier(contextual).error)
    ensures c.Ok? ==> c.value == Expected(factors, responses, SingleScores(reviews), points,
                                          Contextual.ContextualModifier(contextual).value, simulate)
  {
    var combined := CombinedScore(factors, responses, reviews, points);
    if combined.Err? {
      return Err(AmbiguousManualScore(combined.error.question));
    }
    var (baseScore, manualTotal) := combined.value;
    var contextualModifier := Contextual.CalculateContextualModifier(contextual);
    if contextualModifier.Err? {
      return Err(ModifierFailed(contextualModifier.error));
    }
    var adjustedScore := baseScore * (1.0 + contextualModifier.value);
    var (finalScore, confidenceLow, confidenceHigh) := simulate(adjustedScore);
    assert adjustedScore == Contextual.AdjustedScore(baseScore, contextualModifier.value);
    return Ok(RiskCalculation(baseScore, manualTotal, baseScore, adjustedScore, finalScore, confidenceLow, confidenceHigh));
  }

  /**
   * With choice scores and level points within [0, 10] and a well-weighted taxonomy, the
   * combined score lies within [0, 20], and a modifier within [-1, 1] keeps the adjusted
   * score within [0, 40]; a modifier of 0 leaves it equal to the combined score.
   */
  lemma CalculationBounds(factors: seq<MainRiskFactor>, responses: map<int, RiskAssessmentResponse>,
                          manual: map<int, real>, points: Fuzzy.LevelPoints, modifier: real,
                          simulate: real -> (real, real, real))
    requires WellWeighted(factors) && Fuzzy.PointsWithin(points, 0.0, 10.0)
    requires forall id :: id in responses && responses[id].selectedChoice.Some? ==>
               0.0 <= responses[id].selectedChoice.value.score <= 10.0
    requires -1.0 <= modifier <= 1.0
    ensures 0.0 <= Expected(factors, responses, manual, points, modifier, simulate).initialScore <= 20.0
    ensures 0.0 <= Expected(factors, responses, manual, points, modifier, simulate).fuzzyScore <= 10.0
    ensures 0.0 <= Expected(factors, responses, manual, points, modifier, simulate).contextualScore <= 40.0
    ensures modifier == 0.0 ==>
              Expected(factors, responses, manual, points, modifier, simulate).contextualScore
              == Expected(factors, responses, manual, points, modifier, simulate).initialScore
  {
    ObjectiveScoresWithin(responses);
    SubjectiveScoresWithin(manual, points);
    TotalWithinScale(Objective(responses), factors);
    TotalWithinScale(Subjective(CrispScores(manual, points)), factors);
    var base := BaseScore(factors, responses, manual, points);
    Contextual.AdjustedScoreBetween(base, modifier, -1.0, 1.0);
    assert Contextual.AdjustedScore(base, 1.0) == 2.0 * base;
  }
}
