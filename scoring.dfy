/**
 * The two scorers and the combination step of the risk engine, as the nested loops they are:
 * main factor, then sub factor, then the questions of the scored types. Each method is proved
 * equal to the hierarchical specification of module Hierarchy, whose properties are proved there.
 */
module Scoring {
  import opened Wrappers
  import opened Models
  import Fuzzy
  import opened Hierarchy

  /**
   * The initial score: Yes/No and Multiple Choice questions only. A Yes answer earns 10, any
   * other Yes/No answer 0; a Multiple Choice answer earns its choice's score, or 0 without a
   * choice. A question without a stored response is skipped but keeps its share. The
   * per-factor contributions are collected by main-factor id and their values summed.
   *
   * Main-factor ids are table keys, hence distinct.
   */
  method CalculateInitialScore(factors: seq<MainRiskFactor>, responses: map<int, RiskAssessmentResponse>)
    returns (total: real)
    requires DistinctFactorIds(factors)
    ensures total == Total(Objective(responses), factors)
  {
    var mainFactorScores := InitialFactorScores(factors, responses);
    // The values of the dictionary, in insertion order, which is factor order.
    total := 0.0;
    var i := 0;
    while i < |factors|
      invariant 0 <= i <= |factors|
      invariant total == LookupSum(factors[..i], mainFactorScores)
    {
      assert factors[..i + 1][..i] == factors[..i];
      ContributionMapAt(Objective(responses), factors, i);
      total := total + mainFactorScores[factors[i].id];
      i := i + 1;
    }
    assert factors[..i] == factors;
    LookupSumOfContributionMap(Objective(responses), factors);
  }

  /** The main-factor loop of the initial scorer: main-factor id to contribution. */
  method InitialFactorScores(factors: seq<MainRiskFactor>, responses: map<int, RiskAssessmentResponse>)
    returns (mainFactorScores: map<int, real>)
    ensures mainFactorScores == ContributionMap(Objective(responses), factors)
  {
    ghost var s := Objective(responses);
    mainFactorScores := map[];
    var i := 0;
    while i < |factors|
      invariant 0 <= i <= |factors|
      invariant mainFactorScores == ContributionMap(s, factors[..i])
    {
      var mainFactor := factors[i];
      var mainFactorScore := InitialMainFactorScore(mainFactor, responses);
      assert mainFactorScore * mainFactor.weight == Contribution(s, mainFactor);
      assert factors[..i + 1][..i] == factors[..i] && factors[..i + 1][i] == mainFactor;
      mainFactorScores := mainFactorScores[mainFactor.id := mainFactorScore * mainFactor.weight];
      i := i + 1;
    }
    assert factors[..i] == factors;
  }

  /** A lookup of a manual score that found one score per review for the question. */
  datatype ManualScoreError = MultipleScores(question: int)

  /**
   * The manual scores: Short Answer and File Upload questions only. The score of a question is
   * looked up across all reviews of the questionnaire; found once, it is turned into its crisp
   * score through the fuzzy levels; not found, the question is skipped but keeps its share;
   * found in several reviews, the lookup fails and so does the whole step. The result maps
   * every main-factor id to its contribution.
   */
  method ProcessManualScores(factors: seq<MainRiskFactor>, reviews: seq<map<int, real>>, points: Fuzzy.LevelPoints)
    returns (r: Result<map<int, real>, ManualScoreError>)
    ensures r.Err? <==> TaxonomyScoredTwice(reviews, factors)
    ensures r.Err? ==> |ScoresFor(reviews, r.error.question)| > 1
    ensures r.Ok? ==> r.value == ContributionMap(ManualScorer(reviews, points), factors)
  {
    ghost var s := ManualScorer(reviews, points);
    var manualScores := map[];
    var i := 0;
    while i < |factors|
      invariant 0 <= i <= |factors|
      invariant manualScores == ContributionMap(s, factors[..i])
      invariant !TaxonomyScoredTwice(reviews, factors[..i])
    {
      var mainFactor := factors[i];
      var score := ManualMainFactorScore(mainFactor, reviews, points);
      TaxonomyScoredTwiceStep(reviews, factors, i);
      if score.Err? {
        return Err(score.error);
      }
      var mainFactorScore := score.value;
      ContributionMapStep(s, factors, i, mainFactorScore * mainFactor.weight);
      manualScores := manualScores[mainFactor.id := mainFactorScore * mainFactor.weight];
      i := i + 1;
    }
    assert factors[..i] == factors;
    return Ok(manualScores);
  }

  /**
   * One more main factor scored twice or not: the first i + 1 factors are scored twice iff the
   * first i are or factor i is, and a factor scored twice makes the whole taxonomy so.
   */
  lemma TaxonomyScoredTwiceStep(reviews: seq<map<int, real>>, fs: seq<MainRiskFactor>, i: nat)
    requires i < |fs|
    ensures TaxonomyScoredTwice(reviews, fs[..i + 1])
            <==> TaxonomyScoredTwice(reviews, fs[..i]) || FactorScoredTwice(reviews, fs[i])
    ensures FactorScoredTwice(reviews, fs[i]) ==> TaxonomyScoredTwice(reviews, fs)
  {
    assert fs[..i + 1][i] == fs[i];
    if TaxonomyScoredTwice(reviews, fs[..i]) {
      var k :| 0 <= k < i && FactorScoredTwice(reviews, fs[..i][k]);
      assert fs[..i + 1][k] == fs[..i][k];
    }
    if TaxonomyScoredTwice(reviews, fs[..i + 1]) && !FactorScoredTwice(reviews, fs[i]) {
      var k :| 0 <= k < i + 1 && FactorScoredTwice(reviews, fs[..i + 1][k]);
      assert fs[..i][k] == fs[..i + 1][k];
    }
  }

  /** One more main factor in the contribution map: its id now maps to its contribution. */
  lemma ContributionMapStep(s: Scorer, fs: seq<MainRiskFactor>, i: nat, v: real)
    requires i < |fs| && v == Contribution(s, fs[i])
    ensures ContributionMap(s, fs[..i + 1]) == ContributionMap(s, fs[..i])[fs[i].id := v]
  {
    assert fs[..i + 1][..i] == fs[..i];
  }

  /** The sub-factor loop of the initial scorer for one main factor, before its weight. */
  method InitialMainFactorScore(mainFactor: MainRiskFactor, responses: map<int, RiskAssessmentResponse>)
    returns (mainFactorScore: real)
    ensures mainFactorScore == MainFactorScore(Objective(responses), mainFactor.subFactors)
  {
    mainFactorScore := 0.0;
    var j := 0;
    while j < |mainFactor.subFactors|
      invariant 0 <= j <= |mainFactor.subFactors|
      invariant mainFactorScore == MainFactorScore(Objective(responses), mainFactor.subFactors[..j])
    {
      var subFactor := mainFactor.subFactors[j];
      var score := InitialSubFactorScore(subFactor, responses);
      if score.None? {
        MainFactorScoreStep(Objective(responses), mainFactor.subFactors, j, 0.0, mainFactorScore, mainFactorScore);
        j := j + 1;
        continue;
      }
      var subFactorScore := score.value;
      var next := mainFactorScore + subFactorScore * subFactor.weight;
      MainFactorScoreStep(Objective(responses), mainFactor.subFactors, j, subFactorScore, mainFactorScore, next);
      mainFactorScore := next;
      j := j + 1;
    }
    assert mainFactor.subFactors[..j] == mainFactor.subFactors;
  }

  /**
   * The body of the sub-factor loop of the initial scorer: None when the sub factor has no
   * Yes/No or Multiple Choice question (the loop moves on), else the sub factor's score.
   */
  method InitialSubFactorScore(subFactor: SubRiskFactor, responses: map<int, RiskAssessmentResponse>)
    returns (score: Option<real>)
    ensures score.None? <==> |OfTypes(subFactor.questions, {YesNo, MultipleChoice})| == 0
    ensures score.None? ==> SubFactorScore(Objective(responses), subFactor) == 0.0
    ensures score.Some? ==> score.value == SubFactorScore(Objective(responses), subFactor)
  {
    ghost var s := Objective(responses);
    assert Kinds(s) == {YesNo, MultipleChoice};
    var questions := OfTypes(subFactor.questions, {YesNo, MultipleChoice});
    if |questions| == 0 {
      return None;
    }
    var questionWeight := 1.0 / (|questions| as real);
    ShareOfLength(questions);
    var subFactorScore := InitialQuestionsScore(questions, responses, questionWeight);
    return Some(subFactorScore);
  }

  /** The sub-factor loop of the manual scorer for one main factor, before its weight. */
  method ManualMainFactorScore(mainFactor: MainRiskFactor, reviews: seq<map<int, real>>, points: Fuzzy.LevelPoints)
    returns (r: Result<real, ManualScoreError>)
    ensures r.Err? <==> FactorScoredTwice(reviews, mainFactor)
    ensures r.Err? ==> |ScoresFor(reviews, r.error.question)| > 1
    ensures r.Ok? ==> r.value == MainFactorScore(ManualScorer(reviews, points), mainFactor.subFactors)
  {
    ghost var s := ManualScorer(reviews, points);
    var mainFactorScore := 0.0;
    var j := 0;
    while j < |mainFactor.subFactors|
      invariant 0 <= j <= |mainFactor.subFactors|
      invariant mainFactorScore == MainFactorScore(s, mainFactor.subFactors[..j])
      invariant forall j' {:trigger SubFactorScoredTwice(reviews, mainFactor.subFactors[j'])} :: 0 <= j' < j ==> !SubFactorScoredTwice(reviews, mainFactor.subFactors[j'])
    {
      var subFactor := mainFactor.subFactors[j];
      var score := ManualSubFactorScore(subFactor, reviews, points);
      if score.Err? {
        return Err(score.error);
      }
      // A sub factor without manual questions is skipped: it adds nothing.
      ghost var subFactorScore := 0.0;
      var next := mainFactorScore;
      if score.value.Some? {
        subFactorScore := score.value.value;
        next := mainFactorScore + score.value.value * subFactor.weight;
      }
      MainFactorScoreStep(s, mainFactor.subFactors, j, subFactorScore, mainFactorScore, next);
      mainFactorScore := next;
      j := j + 1;
    }
    assert mainFactor.subFactors[..j] == mainFactor.subFactors;
    return Ok(mainFactorScore);
  }

  /**
   * The body of the sub-factor loop of the manual scorer: None when the sub factor has no
   * Short Answer or File Upload question (the loop moves on), else the sub factor's score.
   */
  method ManualSubFactorScore(subFactor: SubRiskFactor, reviews: seq<map<int, real>>, points: Fuzzy.LevelPoints)
    returns (r: Result<Option<real>, ManualScoreError>)
    ensures r.Err? <==> SubFactorScoredTwice(reviews, subFactor)
    ensures r.Err? ==> |ScoresFor(reviews, r.error.question)| > 1
    ensures r.Ok? && r.value.None? <==> |OfTypes(subFactor.questions, {ShortAnswer, FileUpload})| == 0
    ensures r.Ok? && r.value.None? ==> SubFactorScore(ManualScorer(reviews, points), subFactor) == 0.0
    ensures r.Ok? && r.value.Some? ==> r.value.value == SubFactorScore(ManualScorer(reviews, points), subFactor)
  {
    assert Kinds(ManualScorer(reviews, points)) == {ShortAnswer, FileUpload};
    var questions := OfTypes(subFactor.questions, {ShortAnswer, FileUpload});
    if |questions| == 0 {
      return Ok(None);
    }
    var questionWeight := 1.0 / (|questions| as real);
    ShareOfLength(questions);
    var subFactorScore := ManualQuestionsScore(questions, reviews, points, questionWeight);
    if subFactorScore.Err? {
      return Err(subFactorScore.error);
    }
    return Ok(Some(subFactorScore.value));
  }

  /** The questions loop of the initial scorer: the sum of score * questionWeight. */
  method InitialQuestionsScore(questions: seq<Question>, responses: map<int, RiskAssessmentResponse>,
                               questionWeight: real)
    returns (subFactorScore: real)
    ensures subFactorScore == ShareSum(Objective(responses), questions, questionWeight)
  {
    subFactorScore := 0.0;
    var k := 0;
    while k < |questions|
      invariant 0 <= k <= |questions|
      invariant subFactorScore == ShareSum(Objective(responses), questions[..k], questionWeight)
    {
      var question := questions[k];
      if question.id !in responses {
        ShareSumStep(Objective(responses), questions, k, questionWeight, 0.0, subFactorScore, subFactorScore);
        k := k + 1;
        continue;
      }
      var response := responses[question.id];
      var score: real;
      if question.qtype == YesNo {
        score := if response.yesNo == Some(true) then 10.0 else 0.0;
      } else {
        score := if response.selectedChoice.Some? then response.selectedChoice.value.score else 0.0;
      }
      var next := subFactorScore + score * questionWeight;
      ShareSumStep(Objective(responses), questions, k, questionWeight, score, subFactorScore, next);
      subFactorScore := next;
      k := k + 1;
    }
    assert questions[..k] == questions;
  }

  /**
   * The questions loop of the manual scorer: the sum of crisp score * questionWeight over the
   * questions scored once; the first question scored by several reviews stops the loop.
   */
  method ManualQuestionsScore(questions: seq<Question>, reviews: seq<map<int, real>>, points: Fuzzy.LevelPoints,
                              questionWeight: real)
    returns (r: Result<real, ManualScoreError>)
    ensures r.Err? <==> ScoredTwice(reviews, questions)
    ensures r.Err? ==> exists k {:trigger ScoresFor(reviews, questions[k].id)} :: 0 <= k < |questions| && questions[k].id == r.error.question
                                   && |ScoresFor(reviews, questions[k].id)| > 1
                                   && forall j {:trigger ScoresFor(reviews, questions[j].id)} :: 0 <= j < k ==> |ScoresFor(reviews, questions[j].id)| <= 1
    ensures r.Ok? ==> r.value == ShareSum(ManualScorer(reviews, points), questions, questionWeight)
  {
    ghost var s := ManualScorer(reviews, points);
    var subFactorScore := 0.0;
    var k := 0;
    while k < |questions|
      invariant 0 <= k <= |questions|
      invariant subFactorScore == ShareSum(s, questions[..k], questionWeight)
      invariant forall j {:trigger ScoresFor(reviews, questions[j].id)} :: 0 <= j < k ==> |ScoresFor(reviews, questions[j].id)| <= 1
    {
      var question := questions[k];
      var scores := ScoresFor(reviews, question.id);
      ManualQuestionScore(reviews, points, question);
      if |scores| > 1 {
        return Err(MultipleScores(question.id));
      }
      if |scores| == 0 {
        ShareSumStep(s, questions, k, questionWeight, 0.0, subFactorScore, subFactorScore);
        k := k + 1;
        continue;
      }
      var crispScore := Fuzzy.CrispScore(points, scores[0]);
      var next := subFactorScore + crispScore * questionWeight;
      ShareSumStep(s, questions, k, questionWeight, crispScore, subFactorScore, next);
      subFactorScore := next;
      k := k + 1;
    }
    assert questions[..k] == questions;
    return Ok(subFactorScore);
  }

  /**
   * Sums, over the main factors, the initial and the manual entry of each factor, an absent
   * entry counting 0.
   */
  method CombineScores(factors: seq<MainRiskFactor>, initialScores: map<int, real>, manualScores: map<int, real>)
    returns (totalScore: real)
    ensures totalScore == LookupSum(factors, initialScores) + LookupSum(factors, manualScores)
  {
    totalScore := 0.0;
    var i := 0;
    while i < |factors|
      invariant 0 <= i <= |factors|
      invariant totalScore == LookupSum(factors[..i], initialScores) + LookupSum(factors[..i], manualScores)
    {
      assert factors[..i + 1][..i] == factors[..i];
      var initial := if factors[i].id in initialScores then initialScores[factors[i].id] else 0.0;
      var manual := if factors[i].id in manualScores then manualScores[factors[i].id] else 0.0;
      var factorScore := initial + manual;
      totalScore := totalScore + factorScore;
      i := i + 1;
    }
    assert factors[..i] == factors;
  }

  /** With no entries at all, a lookup sum is 0. */
  lemma {:induction false} LookupSumOfEmpty(fs: seq<MainRiskFactor>)
    ensures LookupSum(fs, map[]) == 0.0
  {
    if |fs| > 0 {
      LookupSumOfEmpty(fs[..|fs| - 1]);
    }
  }

  /**
   * Combining the two per-factor maps of one questionnaire gives the initial total plus the
   * manual total.
   */
  lemma CombineOfContributionMaps(factors: seq<MainRiskFactor>, responses: map<int, RiskAssessmentResponse>,
                                  crisp: map<int, real>)
    requires DistinctFactorIds(factors)
    ensures LookupSum(factors, ContributionMap(Objective(responses), factors))
            + LookupSum(factors, ContributionMap(Subjective(crisp), factors))
            == Total(Objective(responses), factors) + Total(Subjective(crisp), factors)
  {
    LookupSumOfContributionMap(Objective(responses), factors);
    LookupSumOfContributionMap(Subjective(crisp), factors);
  }
}
