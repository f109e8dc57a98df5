/**
 * The stored rows the views and the risk calculation update in place: the three
 * questionnaires of a vendor, the review a risk-assessment team member keeps with its manual
 * scores, and the table of risk calculations, one per risk-assessment questionnaire.
 *
 * A questionnaire's responses are the rows of its response table; their number is what
 * calculate_progress counts. Each class holds that table as a map or set keyed by question id,
 * because a response is created or updated per (questionnaire, question) pair.
 */
module Records {
  import opened Wrappers
  import opened Models

  /** The corporate questionnaire: its status, its progress and the questions it has answers for. */
  class CorporateQuestionnaire {
    var status: Status
    var progress: real
    var answered: set<int>

    ghost predicate Valid()
      reads this
    {
      status in StatusChoices(Corporate)
    }

    constructor ()
      ensures Valid()
      ensures status == DefaultStatus && progress == 0.0 && answered == {}
    {
      status := DefaultStatus;
      progress := 0.0;
      answered := {};
    }

    /** Stores the answered share of the corporate questions, in percent, and returns it. */
    method CalculateProgress(totalQuestions: nat) returns (p: real)
      modifies this
      ensures p == progress && progress == Progress(|answered|, totalQuestions)
      ensures |answered| <= totalQuestions ==> 0.0 <= p <= 100.0
      ensures status == old(status) && answered == old(answered)
    {
      var answeredCount := |answered|;
      progress := if totalQuestions > 0 then (answeredCount as real / totalQuestions as real) * 100.0 else 0.0;
      p := progress;
    }
  }

  /**
   * The contextual questionnaire: the selected choice per question, and the risk modifier
   * record written at submission (absent until then).
   */
  class ContextualQuestionnaire {
    var status: Status
    var progress: real
    var selected: map<int, int>
    var modifier: Option<real>

    ghost predicate Valid()
      reads this
    {
      status in StatusChoices(Contextual)
    }

    constructor ()
      ensures Valid()
      ensures status == DefaultStatus && progress == 0.0 && selected == map[] && modifier == None
    {
      status := DefaultStatus;
      progress := 0.0;
      selected := map[];
      modifier := None;
    }

    /** Stores the answered share of the contextual questions, in percent, and returns it. */
    method CalculateProgress(totalQuestions: nat) returns (p: real)
      modifies this
      ensures p == progress && progress == Progress(|selected|, totalQuestions)
      ensures |selected| <= totalQuestions ==> 0.0 <= p <= 100.0
      ensures status == old(status) && selected == old(selected) && modifier == old(modifier)
    {
      var answeredCount := |selected|;
      progress := if totalQuestions > 0 then (answeredCount as real / totalQuestions as real) * 100.0 else 0.0;
      p := progress;
    }
  }

  /** The risk-assessment questionnaire: its id, status, progress and stored responses by question id. */
  class RiskAssessmentQuestionnaire {
    const id: int
    var status: Status
    var progress: real
    var responses: map<int, RiskAssessmentResponse>

    ghost predicate Valid()
      reads this
    {
      status in StatusChoices(RiskAssessment)
    }

    constructor (id: int)
      ensures Valid()
      ensures this.id == id && status == DefaultStatus && progress == 0.0 && responses == map[]
    {
      this.id := id;
      status := DefaultStatus;
      progress := 0.0;
      responses := map[];
    }

    /** Stores the answered share of the risk-assessment questions, in percent, and returns it. */
    method CalculateProgress(totalQuestions: nat) returns (p: real)
      modifies this
      ensures p == progress && progress == Progress(|responses|, totalQuestions)
      ensures |responses| <= totalQuestions ==> 0.0 <= p <= 100.0
      ensures status == old(status) && responses == old(responses)
    {
      var answeredCount := |responses|;
      progress := if totalQuestions > 0 then (answeredCount as real / totalQuestions as real) * 100.0 else 0.0;
      p := progress;
    }
  }

  /** A team member's review of a submission: the manual score per question id. */
  class Review {
    var scores: map<int, real>

    /** No stored manual score lies outside [0, 10]. */
    ghost predicate Valid()
      reads this
    {
      forall q :: q in scores ==> 0.0 <= scores[q] <= 10.0
    }

    constructor ()
      ensures Valid() && scores == map[]
    {
      scores := map[];
    }

    /**
     * The save of a manual score, created or updated for its question: the range check runs
     * first, and a score it rejects is not stored.
     */
    method SaveScore(question: int, score: real) returns (r: Outcome<ModelError>)
      requires Valid()
      modifies this
      ensures Valid()
      ensures r == CleanManualScore(score)
      ensures r.Pass? ==> scores == old(scores)[question := score]
      ensures r.Fail? ==> scores == old(scores)
    {
      r := CleanManualScore(score);
      if r.Pass? {
        scores := scores[question := score];
      }
    }
  }

  /** The stored result of a risk calculation. */
  datatype RiskCalculation = RiskCalculation(
    initialScore: real,
    fuzzyScore: real,
    weightedScore: real,
    contextualScore: real,
    finalScore: real,
    confidenceLow: real,
    confidenceHigh: real)

  /** The risk calculations, keyed by the one questionnaire each belongs to. */
  class CalculationStore {
    var records: map<int, RiskCalculation>

    constructor ()
      ensures records == map[]
    {
      records := map[];
    }

    /** Creates the questionnaire's record, or replaces it when one exists. */
    method UpdateOrCreate(questionnaire: int, calculation: RiskCalculation)
      modifies this
      ensures records == old(records)[questionnaire := calculation]
    {
      records := records[questionnaire := calculation];
    }
  }

  /**
   * Recalculating replaces: after any sequence of calculations for one questionnaire the table
   * holds one record for it, the last one, and the other questionnaires' records are untouched.
   */
  lemma {:induction false} RecalculationReplaces(records: map<int, RiskCalculation>, questionnaire: int,
                                                 calculations: seq<RiskCalculation>)
    requires |calculations| > 0
    ensures Recalculated(records, questionnaire, calculations).Keys == records.Keys + {questionnaire}
    ensures Recalculated(records, questionnaire, calculations)[questionnaire] == calculations[|calculations| - 1]
    ensures forall k :: k in records && k != questionnaire ==> Recalculated(records, questionnaire, calculations)[k] == records[k]
  {
    if |calculations| > 1 {
      RecalculationReplaces(records, questionnaire, calculations[..|calculations| - 1]);
    }
  }

  /** The table after storing each calculation in turn for one questionnaire. */
  function Recalculated(records: map<int, RiskCalculation>, questionnaire: int, calculations: seq<RiskCalculation>): map<int, RiskCalculation>
  {
    if |calculations| == 0 then records
    else Recalculated(records, questionnaire, calculations[..|calculations| - 1])[questionnaire := calculations[|calculations| - 1]]
  }
}
