/**
 * The hierarchical weighted scoring shared by the initial (objective) and the manual
 * (subjective) scorer. Within a sub factor every question of the scored types gets the same
 * share 1/n, where n counts those questions whether answered or not; the sub factor's score is
 * scaled by the sub-factor weight, the sum over sub factors by the main-factor weight. Nothing is
 * divided by the weight sums.
 *
 * All sums are accumulated left to right, as the loops of the scorers do.
 */
module Hierarchy {
  import opened Wrappers
  import opened Models
  import Fuzzy
  import Means

  /** How a question earns its points, and from which stored data. */
  datatype Scorer =
    | Objective(responses: map<int, RiskAssessmentResponse>)
    | Subjective(crisp: map<int, real>)

  /** The question types a scorer looks at. */
  function Kinds(s: Scorer): set<QuestionType>
  {
    if s.Objective? then {YesNo, MultipleChoice} else {ShortAnswer, FileUpload}
  }

  /** The questions of the given types, in their original order. */
  function OfTypes(qs: seq<Question>, kinds: set<QuestionType>): seq<Question>
  {
    if |qs| == 0 then []
    else OfTypes(qs[..|qs| - 1], kinds) + (if qs[|qs| - 1].qtype in kinds then [qs[|qs| - 1]] else [])
  }

  /** The filter keeps exactly the questions of the given types. */
  lemma {:induction false} OfTypesMembers(qs: seq<Question>, kinds: set<QuestionType>)
    ensures forall q :: q in OfTypes(qs, kinds) <==> q in qs && q.qtype in kinds
    ensures |OfTypes(qs, kinds)| <= |qs|
  {
    if |qs| > 0 {
      OfTypesMembers(qs[..|qs| - 1], kinds);
      assert qs == qs[..|qs| - 1] + [qs[|qs| - 1]];
    }
  }

  /**
   * The points of one question. An objective question without a stored response, and a
   * subjective question without a manual score, earn 0.
   */
  function QuestionScore(s: Scorer, q: Question): real
  {
    match s
    case Objective(responses) =>
      if q.id !in responses then 0.0
      else if q.qtype == YesNo then (if responses[q.id].yesNo == Some(true) then 10.0 else 0.0)
      else (match responses[q.id].selectedChoice
            case Some(choice) => choice.score
            case None => 0.0)
    case Subjective(crisp) =>
      if q.id in crisp then crisp[q.id] else 0.0
  }

  /** The crisp score of every manually scored question, under the question's id. */
  function CrispScores(manual: map<int, real>, points: Fuzzy.LevelPoints): map<int, real>
  {
    map id | id in manual :: Fuzzy.CrispScore(points, manual[id])
  }

  // ---------------------------------------------------------------------------------------
  // The manual scores of all reviews of a questionnaire

  /**
   * The manual scores the lookup of one question returns across the reviews of a
   * questionnaire, one map of question id to score per review, in review order. Each review
   * holds at most one score per question, but nothing stops two reviews holding one each.
   */
  function ScoresFor(reviews: seq<map<int, real>>, id: int): (r: seq<real>)
    ensures |r| <= |reviews|
  {
    if |reviews| == 0 then []
    else
      var last := reviews[|reviews| - 1];
      ScoresFor(reviews[..|reviews| - 1], id) + (if id in last then [last[id]] else [])
  }

  /** The questions some review scores. */
  function ScoredIds(reviews: seq<map<int, real>>): set<int>
  {
    if |reviews| == 0 then {} else ScoredIds(reviews[..|reviews| - 1]) + reviews[|reviews| - 1].Keys
  }

  /**
   * The manual scores the lookup can use: each question that exactly one review scores, with
   * that review's score (SingleScoresAt). Review by review: a single score stays single while
   * no later review scores its question, and a review's score is single when no earlier
   * review scored that question.
   */
  function SingleScores(reviews: seq<map<int, real>>): map<int, real>
  {
    if |reviews| == 0 then map[]
    else
      var earlier := reviews[..|reviews| - 1];
      var last := reviews[|reviews| - 1];
      (SingleScores(earlier) - last.Keys) + (map id | id in last && id !in ScoredIds(earlier) :: last[id])
  }

  /** The scorer of the manual step over the reviews' single scores. */
  function ManualScorer(reviews: seq<map<int, real>>, points: Fuzzy.LevelPoints): Scorer
  {
    Subjective(CrispScores(SingleScores(reviews), points))
  }

  /**
   * How many scores the lookup of a question finds: none exactly when no review scores it,
   * several exactly when two reviews do, and otherwise the one score of the one review that
   * does, which is then its single score.
   */
  lemma {:induction false} ScoresForCount(reviews: seq<map<int, real>>, id: int)
    ensures |ScoresFor(reviews, id)| == 0 <==> forall i :: 0 <= i < |reviews| ==> id !in reviews[i]
    ensures |ScoresFor(reviews, id)| > 0 <==> id in ScoredIds(reviews)
    ensures |ScoresFor(reviews, id)| > 1 <==>
              exists i, j :: 0 <= i < j < |reviews| && id in reviews[i] && id in reviews[j]
    ensures |ScoresFor(reviews, id)| == 1 ==>
              exists i :: 0 <= i < |reviews| && id in reviews[i] && ScoresFor(reviews, id)[0] == reviews[i][id]
                          && forall j :: 0 <= j < |reviews| && j != i ==> id !in reviews[j]
  {
    if |reviews| > 0 {
      var init := reviews[..|reviews| - 1];
      var n := |reviews| - 1;
      ScoresForCount(init, id);
      assert forall i :: 0 <= i < n ==> reviews[i] == init[i];
      if |ScoresFor(reviews, id)| > 1 && id !in reviews[n] {
        var i, j :| 0 <= i < j < n && id in init[i] && id in init[j];
        assert id in reviews[i] && id in reviews[j];
      }
      if |ScoresFor(reviews, id)| > 1 && id in reviews[n] {
        var i :| 0 <= i < n && id in init[i];
        assert id in reviews[i] && id in reviews[n];
      }
      if exists i, j :: 0 <= i < j < |reviews| && id in reviews[i] && id in reviews[j] {
        var i, j :| 0 <= i < j < |reviews| && id in reviews[i] && id in reviews[j];
        if j < n {
          assert id in init[i] && id in init[j];
        } else {
          assert id in init[i];
        }
      }
      if |ScoresFor(reviews, id)| == 1 && id !in reviews[n] {
        var i :| 0 <= i < n && id in init[i] && ScoresFor(init, id)[0] == init[i][id]
                 && forall j :: 0 <= j < n && j != i ==> id !in init[j];
        assert forall j :: 0 <= j < |reviews| && j != i ==> id !in reviews[j];
      }
      if |ScoresFor(reviews, id)| == 1 && id in reviews[n] {
        assert forall j :: 0 <= j < |reviews| && j != n ==> id !in reviews[j];
      }
    }
  }

  /** Some question of the list is scored by two reviews, so looking up its score fails. */
  ghost predicate ScoredTwice(reviews: seq<map<int, real>>, qs: seq<Question>)
  {
    exists k {:trigger ScoresFor(reviews, qs[k].id)} :: 0 <= k < |qs| && |ScoresFor(reviews, qs[k].id)| > 1
  }

  /** Some Short Answer or File Upload question of the sub factor is scored twice. */
  ghost predicate SubFactorScoredTwice(reviews: seq<map<int, real>>, sf: SubRiskFactor)
  {
    ScoredTwice(reviews, OfTypes(sf.questions, {ShortAnswer, FileUpload}))
  }

  ghost predicate FactorScoredTwice(reviews: seq<map<int, real>>, mf: MainRiskFactor)
  {
    exists j {:trigger SubFactorScoredTwice(reviews, mf.subFactors[j])} :: 0 <= j < |mf.subFactors| && SubFactorScoredTwice(reviews, mf.subFactors[j])
  }

  ghost predicate TaxonomyScoredTwice(reviews: seq<map<int, real>>, fs: seq<MainRiskFactor>)
  {
    exists i {:trigger FactorScoredTwice(reviews, fs[i])} :: 0 <= i < |fs| && FactorScoredTwice(reviews, fs[i])
  }

  /**
   * The single scores are exactly the questions the lookup finds once, each with the score it
   * finds.
   */
  lemma {:induction false} SingleScoresAt(reviews: seq<map<int, real>>, id: int)
    ensures id in SingleScores(reviews) <==> |ScoresFor(reviews, id)| == 1
    ensures id in SingleScores(reviews) ==> SingleScores(reviews)[id] == ScoresFor(reviews, id)[0]
  {
    if |reviews| > 0 {
      var earlier := reviews[..|reviews| - 1];
      SingleScoresAt(earlier, id);
      ScoresForCount(earlier, id);
    }
  }

  /**
   * The manual scorer gives a question the crisp score of the one score the lookup finds for
   * it, and 0 when the lookup finds none or several.
   */
  lemma ManualQuestionScore(reviews: seq<map<int, real>>, points: Fuzzy.LevelPoints, q: Question)
    ensures QuestionScore(ManualScorer(reviews, points), q)
            == if |ScoresFor(reviews, q.id)| == 1 then Fuzzy.CrispScore(points, ScoresFor(reviews, q.id)[0]) else 0.0
  {
    SingleScoresAt(reviews, q.id);
  }

  /** With one review, its scores are the single scores. */
  lemma OneReviewScores(scores: map<int, real>)
    ensures SingleScores([scores]) == scores
  {
    assert [scores][..0] == [];
    assert SingleScores([]) == map[] && ScoredIds([]) == {};
    forall id | id in SingleScores([scores])
      ensures id in scores && SingleScores([scores])[id] == scores[id]
    {
    }
  }

  /** The sum of score * w over the questions. */
  function ShareSum(s: Scorer, qs: seq<Question>, w: real): real
  {
    if |qs| == 0 then 0.0
    else ShareSum(s, qs[..|qs| - 1], w) + QuestionScore(s, qs[|qs| - 1]) * w
  }

  /** One step of a share sum: adding the next question's score times w. */
  lemma ShareSumStep(s: Scorer, qs: seq<Question>, k: nat, w: real, v: real, acc: real, next: real)
    requires k < |qs| && v == QuestionScore(s, qs[k])
    requires acc == ShareSum(s, qs[..k], w) && next == acc + v * w
    ensures next == ShareSum(s, qs[..k + 1], w)
  {
    assert qs[..k + 1][..k] == qs[..k];
  }

  /** The number of questions, counted as a real. */
  function Count(qs: seq<Question>): (c: real)
    ensures 0.0 <= c
    ensures |qs| > 0 ==> 1.0 <= c
  {
    if |qs| == 0 then 0.0 else Count(qs[..|qs| - 1]) + 1.0
  }

  lemma {:induction false} CountIsLength(qs: seq<Question>)
    ensures Count(qs) == |qs| as real
  {
    if |qs| > 0 {
      CountIsLength(qs[..|qs| - 1]);
    }
  }

  /** The share the scorers compute as 1 / len(questions) is Share(Count(qs)). */
  lemma ShareOfLength(qs: seq<Question>)
    requires |qs| > 0
    ensures 1.0 / (|qs| as real) == Share(Count(qs))
  {
    CountIsLength(qs);
  }

  /** The share 1/n of each of n questions. */
  function Share(n: real): (r: real)
    requires 0.0 < n
    ensures 0.0 < r && r * n == 1.0
  {
    1.0 / n
  }

  /** A sub factor's score before its weight; 0 when it has no questions of the scored types. */
  function SubFactorScore(s: Scorer, sf: SubRiskFactor): real
  {
    var qs := OfTypes(sf.questions, Kinds(s));
    if |qs| == 0 then 0.0 else ShareSum(s, qs, Share(Count(qs)))
  }

  /** The plain sum of the questions' points. */
  function PointSum(s: Scorer, qs: seq<Question>): real
  {
    if |qs| == 0 then 0.0 else PointSum(s, qs[..|qs| - 1]) + QuestionScore(s, qs[|qs| - 1])
  }

  /** A main factor's score before its weight: the weighted sum of its sub factors' scores. */
  function MainFactorScore(s: Scorer, sfs: seq<SubRiskFactor>): real
  {
    if |sfs| == 0 then 0.0
    else MainFactorScore(s, sfs[..|sfs| - 1]) + SubFactorScore(s, sfs[|sfs| - 1]) * sfs[|sfs| - 1].weight
  }

  /**
   * One step of a main factor's score: adding the next sub factor's score, times its weight,
   * to the score of the sub factors before it gives the score of one more sub factor.
   */
  lemma MainFactorScoreStep(s: Scorer, sfs: seq<SubRiskFactor>, j: nat, v: real, acc: real, next: real)
    requires j < |sfs| && v == SubFactorScore(s, sfs[j])
    requires acc == MainFactorScore(s, sfs[..j]) && next == acc + v * sfs[j].weight
    ensures next == MainFactorScore(s, sfs[..j + 1])
  {
    assert sfs[..j + 1][..j] == sfs[..j];
  }

  function Contribution(s: Scorer, mf: MainRiskFactor): real
  {
    MainFactorScore(s, mf.subFactors) * mf.weight
  }

  /** The sum of the main factors' contributions. */
  function Total(s: Scorer, fs: seq<MainRiskFactor>): real
  {
    if |fs| == 0 then 0.0
    else Total(s, fs[..|fs| - 1]) + Contribution(s, fs[|fs| - 1])
  }

  /** Main-factor id to contribution, each factor written in turn. */
  function ContributionMap(s: Scorer, fs: seq<MainRiskFactor>): map<int, real>
  {
    if |fs| == 0 then map[]
    else ContributionMap(s, fs[..|fs| - 1])[fs[|fs| - 1].id := Contribution(s, fs[|fs| - 1])]
  }

  /** A dictionary lookup with default 0. */
  function Get(m: map<int, real>, k: int): real
  {
    if k in m then m[k] else 0.0
  }

  /** The sum, over the main factors, of the map's value for each factor's id (default 0). */
  function LookupSum(fs: seq<MainRiskFactor>, m: map<int, real>): real
  {
    if |fs| == 0 then 0.0
    else LookupSum(fs[..|fs| - 1], m) + Get(m, fs[|fs| - 1].id)
  }

  ghost predicate DistinctIds(qs: seq<Question>)
  {
    forall i, j :: 0 <= i < j < |qs| ==> qs[i].id != qs[j].id
  }

  ghost predicate DistinctFactorIds(fs: seq<MainRiskFactor>)
  {
    forall i, j :: 0 <= i < j < |fs| ==> fs[i].id != fs[j].id
  }

  function SubWeightTotal(sfs: seq<SubRiskFactor>): real
  {
    if |sfs| == 0 then 0.0 else SubWeightTotal(sfs[..|sfs| - 1]) + sfs[|sfs| - 1].weight
  }

  function MainWeightTotal(fs: seq<MainRiskFactor>): real
  {
    if |fs| == 0 then 0.0 else MainWeightTotal(fs[..|fs| - 1]) + fs[|fs| - 1].weight
  }

  /** Non-negative weights whose sibling sums are at most 1 within each main factor. */
  ghost predicate FactorWellWeighted(mf: MainRiskFactor)
  {
    && 0.0 <= mf.weight
    && (forall j :: 0 <= j < |mf.subFactors| ==> 0.0 <= mf.subFactors[j].weight)
    && SubWeightTotal(mf.subFactors) <= 1.0
  }

  /** Non-negative weights whose sibling sums are at most 1 at both levels. */
  ghost predicate WellWeighted(fs: seq<MainRiskFactor>)
  {
    (forall i :: 0 <= i < |fs| ==> FactorWellWeighted(fs[i])) && MainWeightTotal(fs) <= 1.0
  }

  ghost predicate ScoresWithin(s: Scorer)
  {
    forall q :: 0.0 <= QuestionScore(s, q) <= 10.0
  }

  // ---------------------------------------------------------------------------------------
  // Bounds

  /** Summing score * w is summing the scores and then scaling by w. */
  lemma {:induction false} ShareSumScalesPointSum(s: Scorer, qs: seq<Question>, w: real)
    ensures ShareSum(s, qs, w) == PointSum(s, qs) * w
  {
    if |qs| > 0 {
      var init := qs[..|qs| - 1];
      ShareSumScalesPointSum(s, init, w);
      var a, x := PointSum(s, init), QuestionScore(s, qs[|qs| - 1]);
      assert a * w + x * w == (a + x) * w;
    }
  }

  /** A sub factor with n scored questions scores the sum of their points times the share 1/n. */
  lemma SubFactorScoreScaled(s: Scorer, sf: SubRiskFactor)
    ensures var qs := OfTypes(sf.questions, Kinds(s));
            |qs| > 0 ==> SubFactorScore(s, sf) == PointSum(s, qs) * Share(Count(qs))
  {
    var qs := OfTypes(sf.questions, Kinds(s));
    if |qs| > 0 {
      var w := Share(Count(qs));
      assert SubFactorScore(s, sf) == ShareSum(s, qs, w);
      ShareSumScalesPointSum(s, qs, w);
    }
  }

  /** Equivalently, it scores the mean of their points. */
  lemma SubFactorScoreIsMean(s: Scorer, sf: SubRiskFactor)
    ensures var qs := OfTypes(sf.questions, Kinds(s));
            |qs| > 0 ==> SubFactorScore(s, sf) * Count(qs) == PointSum(s, qs)
  {
    var qs := OfTypes(sf.questions, Kinds(s));
    if |qs| > 0 {
      SubFactorScoreScaled(s, sf);
      Unscale(PointSum(s, qs), Count(qs));
    }
  }

  lemma Unscale(a: real, n: real)
    requires 0.0 < n
    ensures a * Share(n) * n == a
  {
    var r := Share(n);
    assert a * r * n == a * (r * n);
  }

  lemma {:induction false} PointSumBounds(s: Scorer, qs: seq<Question>)
    requires ScoresWithin(s)
    ensures 0.0 <= PointSum(s, qs) <= 10.0 * Count(qs)
  {
    if |qs| > 0 {
      PointSumBounds(s, qs[..|qs| - 1]);
    }
  }

  lemma ScaledByShare(x: real, n: real)
    requires 0.0 < n && 0.0 <= x <= 10.0 * n
    ensures 0.0 <= x * Share(n) <= 10.0
  {
    var r := Share(n);
    Means.ProductMonotone(x, 0.0, 10.0 * n, r);
    assert 10.0 * n * r == 10.0 * (r * n);
  }

  /** With question scores in [0, 10], every sub factor's raw score is in [0, 10]. */
  lemma SubFactorScoreBounds(s: Scorer, sf: SubRiskFactor)
    requires ScoresWithin(s)
    ensures 0.0 <= SubFactorScore(s, sf) <= 10.0
  {
    var qs := OfTypes(sf.questions, Kinds(s));
    if |qs| > 0 {
      SubFactorScoreScaled(s, sf);
      PointSumBounds(s, qs);
      ScaledByShare(PointSum(s, qs), Count(qs));
    }
  }

  lemma WeightedStep(a: real, t: real, v: real, w: real, sum: real, total: real)
    requires 0.0 <= a <= 10.0 * t && 0.0 <= v <= 10.0 && 0.0 <= w
    requires sum == a + v * w && total == t + w
    ensures 0.0 <= sum <= 10.0 * total
  {
    Means.ProductMonotone(v, 0.0, 10.0, w);
  }

  lemma {:induction false} MainFactorScoreBounds(s: Scorer, sfs: seq<SubRiskFactor>)
    requires ScoresWithin(s)
    requires forall j :: 0 <= j < |sfs| ==> 0.0 <= sfs[j].weight
    ensures 0.0 <= MainFactorScore(s, sfs) <= 10.0 * SubWeightTotal(sfs)
  {
    if |sfs| > 0 {
      var init, last := sfs[..|sfs| - 1], sfs[|sfs| - 1];
      MainFactorScoreBounds(s, init);
      SubFactorScoreBounds(s, last);
      WeightedStep(MainFactorScore(s, init), SubWeightTotal(init), SubFactorScore(s, last), last.weight,
                   MainFactorScore(s, sfs), SubWeightTotal(sfs));
    }
  }

  lemma ContributionBounds(s: Scorer, mf: MainRiskFactor)
    requires ScoresWithin(s) && FactorWellWeighted(mf)
    ensures 0.0 <= Contribution(s, mf) <= 10.0 * mf.weight
  {
    MainFactorScoreBounds(s, mf.subFactors);
    WeightedStep(0.0, 0.0, MainFactorScore(s, mf.subFactors), mf.weight, Contribution(s, mf), mf.weight);
  }

  lemma {:induction false} TotalBounds(s: Scorer, fs: seq<MainRiskFactor>)
    requires ScoresWithin(s)
    requires forall i :: 0 <= i < |fs| ==> FactorWellWeighted(fs[i])
    ensures 0.0 <= Total(s, fs) <= 10.0 * MainWeightTotal(fs)
  {
    if |fs| > 0 {
      var init := fs[..|fs| - 1];
      TotalBounds(s, init);
      ContributionBounds(s, fs[|fs| - 1]);
    }
  }

  /**
   * With question scores in [0, 10] and non-negative weights summing to at most 1 at both
   * levels, the total lies in [0, 10].
   */
  lemma TotalWithinScale(s: Scorer, fs: seq<MainRiskFactor>)
    requires ScoresWithin(s) && WellWeighted(fs)
    ensures 0.0 <= Total(s, fs) <= 10.0
  {
    TotalBounds(s, fs);
  }

  /** Objective scores are in [0, 10] when every stored selected choice scores in [0, 10]. */
  lemma ObjectiveScoresWithin(responses: map<int, RiskAssessmentResponse>)
    requires forall id :: id in responses && responses[id].selectedChoice.Some? ==>
               0.0 <= responses[id].selectedChoice.value.score <= 10.0
    ensures ScoresWithin(Objective(responses))
  {
  }

  /** Subjective scores are in [0, 10] when the level points are, whatever the manual scores. */
  lemma SubjectiveScoresWithin(manual: map<int, real>, points: Fuzzy.LevelPoints)
    requires Fuzzy.PointsWithin(points, 0.0, 10.0)
    ensures ScoresWithin(Subjective(CrispScores(manual, points)))
  {
    var crisp := CrispScores(manual, points);
    forall q: Question ensures 0.0 <= QuestionScore(Subjective(crisp), q) <= 10.0 {
      if q.id in manual {
        Fuzzy.CrispInRange(points, manual[q.id]);
      }
    }
  }

  // ---------------------------------------------------------------------------------------
  // Missing answers: zero points, full share

  lemma {:induction false} PointSumAgree(s1: Scorer, s2: Scorer, qs: seq<Question>)
    requires forall q :: q in qs ==> QuestionScore(s1, q) == QuestionScore(s2, q)
    ensures PointSum(s1, qs) == PointSum(s2, qs)
  {
    if |qs| > 0 {
      PointSumAgree(s1, s2, qs[..|qs| - 1]);
    }
  }

  /**
   * When two scorers differ only on the question q, which occurs once, the point sums differ
   * by exactly q's change in points.
   */
  lemma {:induction false} PointSumChangeAt(s1: Scorer, s2: Scorer, qs: seq<Question>, q: Question)
    requires DistinctIds(qs) && q in qs
    requires forall p :: p in qs && p.id != q.id ==> QuestionScore(s1, p) == QuestionScore(s2, p)
    ensures PointSum(s2, qs) == PointSum(s1, qs) + QuestionScore(s2, q) - QuestionScore(s1, q)
  {
    var init, last := qs[..|qs| - 1], qs[|qs| - 1];
    if last == q {
      forall p | p in init ensures QuestionScore(s1, p) == QuestionScore(s2, p) {
        var i :| 0 <= i < |init| && init[i] == p;
        assert qs[i].id != qs[|qs| - 1].id;
      }
      PointSumAgree(s1, s2, init);
    } else {
      var k :| 0 <= k < |qs| && qs[k] == q;
      assert k < |qs| - 1;
      assert last.id != q.id;
      PointSumChangeAt(s1, s2, init, q);
    }
  }

  lemma {:induction false} OfTypesDistinct(qs: seq<Question>, kinds: set<QuestionType>)
    requires DistinctIds(qs)
    ensures DistinctIds(OfTypes(qs, kinds))
  {
    if |qs| > 0 {
      var init, last := qs[..|qs| - 1], qs[|qs| - 1];
      OfTypesDistinct(init, kinds);
      OfTypesMembers(init, kinds);
      var head := OfTypes(init, kinds);
      forall p | p in head ensures p.id != last.id {
        var m :| 0 <= m < |init| && init[m] == p;
        assert qs[m] == p;
      }
      var r := OfTypes(qs, kinds);
      if last.qtype in kinds {
        assert r == head + [last];
        forall i, j | 0 <= i < j < |r| ensures r[i].id != r[j].id {
          assert r[i] == head[i] && head[i] in head;
          if j < |head| {
            assert r[j] == head[j];
          }
        }
      } else {
        assert r == head;
      }
    }
  }

  /** Changing one question's points by d changes its sub factor's score by d times the share. */
  lemma ChangeIsOneShare(s1: Scorer, s2: Scorer, sf: SubRiskFactor, q: Question)
    requires Kinds(s1) == Kinds(s2)
    requires DistinctIds(sf.questions) && q in sf.questions && q.qtype in Kinds(s1)
    requires forall p :: p in sf.questions && p.id != q.id ==> QuestionScore(s1, p) == QuestionScore(s2, p)
    ensures var qs := OfTypes(sf.questions, Kinds(s1));
            |qs| > 0 &&
            SubFactorScore(s2, sf)
            == SubFactorScore(s1, sf) + (QuestionScore(s2, q) - QuestionScore(s1, q)) * Share(Count(qs))
  {
    var qs := OfTypes(sf.questions, Kinds(s1));
    OfTypesMembers(sf.questions, Kinds(s1));
    OfTypesDistinct(sf.questions, Kinds(s1));
    PointSumChangeAt(s1, s2, qs, q);
    assert OfTypes(sf.questions, Kinds(s2)) == qs;
    SubFactorScoreScaled(s1, sf);
    SubFactorScoreScaled(s2, sf);
    Distribute(PointSum(s1, qs), QuestionScore(s2, q) - QuestionScore(s1, q), PointSum(s2, qs), Share(Count(qs)));
  }

  lemma Distribute(a: real, d: real, b: real, r: real)
    requires b == a + d
    ensures b * r == a * r + d * r
  {
  }

  /**
   * Storing an answer for an unanswered question q adds exactly q's points times its share
   * 1/n: the unanswered question earned nothing, but n already counted it.
   */
  lemma AnsweringAddsOneShare(responses: map<int, RiskAssessmentResponse>, sf: SubRiskFactor,
                              q: Question, answer: RiskAssessmentResponse)
    requires DistinctIds(sf.questions) && q in sf.questions && q.qtype in {YesNo, MultipleChoice}
    requires q.id !in responses
    ensures var qs := OfTypes(sf.questions, {YesNo, MultipleChoice});
            |qs| > 0 &&
            SubFactorScore(Objective(responses[q.id := answer]), sf)
            == SubFactorScore(Objective(responses), sf)
               + QuestionScore(Objective(responses[q.id := answer]), q) * Share(Count(qs))
  {
    ChangeIsOneShare(Objective(responses), Objective(responses[q.id := answer]), sf, q);
  }

  /**
   * Storing a manual score for an unscored question q adds exactly q's crisp score c times its
   * share 1/n.
   */
  lemma ScoringAddsOneShare(crisp: map<int, real>, sf: SubRiskFactor, q: Question, c: real)
    requires DistinctIds(sf.questions) && q in sf.questions && q.qtype in {ShortAnswer, FileUpload}
    requires q.id !in crisp
    ensures var qs := OfTypes(sf.questions, {ShortAnswer, FileUpload});
            |qs| > 0 &&
            SubFactorScore(Subjective(crisp[q.id := c]), sf)
            == SubFactorScore(Subjective(crisp), sf) + c * Share(Count(qs))
  {
    ChangeIsOneShare(Subjective(crisp), Subjective(crisp[q.id := c]), sf, q);
  }

  /** Storing a manual score adds its crisp score, and only that, to the crisp scores. */
  lemma CrispScoresUpdate(manual: map<int, real>, points: Fuzzy.LevelPoints, id: int, score: real)
    ensures CrispScores(manual[id := score], points)
            == CrispScores(manual, points)[id := Fuzzy.CrispScore(points, score)]
  {
  }

  lemma {:induction false} PointSumZero(s: Scorer, qs: seq<Question>)
    requires forall q :: q in qs ==> QuestionScore(s, q) == 0.0
    ensures PointSum(s, qs) == 0.0
  {
    if |qs| > 0 {
      PointSumZero(s, qs[..|qs| - 1]);
    }
  }

  lemma {:induction false} MainFactorScoreZero(s: Scorer, sfs: seq<SubRiskFactor>)
    requires forall j, q :: 0 <= j < |sfs| && q in OfTypes(sfs[j].questions, Kinds(s)) ==>
               QuestionScore(s, q) == 0.0
    ensures MainFactorScore(s, sfs) == 0.0
  {
    if |sfs| > 0 {
      var init, last := sfs[..|sfs| - 1], sfs[|sfs| - 1];
      MainFactorScoreZero(s, init);
      var qs := OfTypes(last.questions, Kinds(s));
      if |qs| > 0 {
        PointSumZero(s, qs);
        ShareSumScalesPointSum(s, qs, Share(Count(qs)));
      }
    }
  }

  /**
   * A main factor none of whose scored questions earns points contributes 0; in particular one
   * with no questions of the scored types, or one none of whose questions has a manual score.
   */
  lemma SilentFactorContributesZero(s: Scorer, mf: MainRiskFactor)
    requires forall j, q :: 0 <= j < |mf.subFactors| && q in OfTypes(mf.subFactors[j].questions, Kinds(s)) ==>
               QuestionScore(s, q) == 0.0
    ensures Contribution(s, mf) == 0.0
  {
    MainFactorScoreZero(s, mf.subFactors);
  }

  lemma UnscoredFactorContributesZero(manual: map<int, real>, points: Fuzzy.LevelPoints, mf: MainRiskFactor)
    requires forall j, q :: 0 <= j < |mf.subFactors| && q in mf.subFactors[j].questions ==> q.id !in manual
    ensures Contribution(Subjective(CrispScores(manual, points)), mf) == 0.0
  {
    forall j | 0 <= j < |mf.subFactors| {
      OfTypesMembers(mf.subFactors[j].questions, {ShortAnswer, FileUpload});
    }
    SilentFactorContributesZero(Subjective(CrispScores(manual, points)), mf);
  }

  // ---------------------------------------------------------------------------------------
  // The per-factor map

  lemma {:induction false} ContributionMapKeys(s: Scorer, fs: seq<MainRiskFactor>)
    ensures ContributionMap(s, fs).Keys == set i | 0 <= i < |fs| :: fs[i].id
  {
    if |fs| > 0 {
      var init := fs[..|fs| - 1];
      ContributionMapKeys(s, init);
      assert (set i | 0 <= i < |fs| :: fs[i].id) == (set i | 0 <= i < |init| :: init[i].id) + {fs[|fs| - 1].id};
    }
  }

  /** With distinct ids, the map holds each main factor's own contribution under its id. */
  lemma {:induction false} ContributionMapAt(s: Scorer, fs: seq<MainRiskFactor>, k: nat)
    requires DistinctFactorIds(fs) && k < |fs|
    ensures fs[k].id in ContributionMap(s, fs)
    ensures ContributionMap(s, fs)[fs[k].id] == Contribution(s, fs[k])
  {
    var init := fs[..|fs| - 1];
    if k < |fs| - 1 {
      assert init[k] == fs[k];
      assert DistinctFactorIds(init) by {
        forall i, j | 0 <= i < j < |init| ensures init[i].id != init[j].id {
          assert init[i] == fs[i] && init[j] == fs[j];
        }
      }
      ContributionMapAt(s, init, k);
    }
  }

  lemma {:induction false} LookupSumIgnoresOtherKeys(fs: seq<MainRiskFactor>, m: map<int, real>, k: int, v: real)
    requires forall i :: 0 <= i < |fs| ==> fs[i].id != k
    ensures LookupSum(fs, m[k := v]) == LookupSum(fs, m)
  {
    if |fs| > 0 {
      var init := fs[..|fs| - 1];
      LookupSumIgnoresOtherKeys(init, m, k, v);
    }
  }

  /** With distinct ids, summing the per-factor map over the factors gives back the total. */
  lemma {:induction false} LookupSumOfContributionMap(s: Scorer, fs: seq<MainRiskFactor>)
    requires DistinctFactorIds(fs)
    ensures LookupSum(fs, ContributionMap(s, fs)) == Total(s, fs)
  {
    if |fs| > 0 {
      var init, last := fs[..|fs| - 1], fs[|fs| - 1];
      assert DistinctFactorIds(init);
      LookupSumOfContributionMap(s, init);
      LookupSumIgnoresOtherKeys(init, ContributionMap(s, init), last.id, Contribution(s, last));
    }
  }
}
