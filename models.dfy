/**
 * The entities of the risk-assessment platform and the small rules attached to them:
 * the risk taxonomy (main factor -> sub factor -> question -> choice), the answers a vendor
 * gives, the status enumerations of the three questionnaires, the progress percentage,
 * the range checks run before a manual score or a document is stored, and the
 * status filters of the risk-assessment questionnaire manager.
 */
module Models {
  import opened Wrappers

  datatype QuestionType = YesNo | MultipleChoice | ShortAnswer | FileUpload

  /** A choice of a multiple-choice question; its score is meant to lie in [0, 10]. */
  datatype QuestionChoice = QuestionChoice(id: int, score: real)

  datatype Question = Question(id: int, qtype: QuestionType, choices: seq<QuestionChoice>)

  /** A sub factor: its weight within its main factor and its questions in display order. */
  datatype SubRiskFactor = SubRiskFactor(weight: real, questions: seq<Question>)

  /** A main factor: its weight in the total risk and its sub factors in display order. */
  datatype MainRiskFactor = MainRiskFactor(id: int, weight: real, subFactors: seq<SubRiskFactor>)

  /** A stored answer to a risk-assessment question; every column is nullable. */
  datatype RiskAssessmentResponse = RiskAssessmentResponse(
    yesNo: Option<bool>,
    selectedChoice: Option<QuestionChoice>,
    text: Option<string>)

  /**
   * An answer of the contextual questionnaire, reduced to the two numbers the engine reads:
   * the question's weight (percentage points) and the selected choice's modifier.
   */
  datatype ContextualResponse = ContextualResponse(weight: real, modifier: real)

  datatype Status = InProgress | Submitted | UnderReview | Completed

  datatype QuestionnaireKind = Corporate | Contextual | RiskAssessment

  /** The statuses a questionnaire of each kind may hold. */
  function StatusChoices(kind: QuestionnaireKind): (choices: set<Status>)
    ensures InProgress in choices && Submitted in choices
    ensures UnderReview in choices <==> kind == RiskAssessment
    ensures Completed in choices <==> kind == RiskAssessment
  {
    match kind
    case RiskAssessment => {InProgress, Submitted, UnderReview, Completed}
    case _ => {InProgress, Submitted}
  }

  /** Every questionnaire is created In Progress. */
  const DefaultStatus: Status := InProgress

  /**
   * The progress percentage every questionnaire computes: the answered share of all
   * questions times 100, or 0 when there are no questions at all.
   */
  function Progress(answered: nat, total: nat): (p: real)
    ensures total == 0 ==> p == 0.0
    ensures 0 < total ==> p * (total as real) == (answered as real) * 100.0
    ensures answered <= total ==> 0.0 <= p <= 100.0
    ensures answered <= total ==> (p == 100.0 <==> 0 < total && answered == total)
  {
    if total > 0 then (answered as real) / (total as real) * 100.0 else 0.0
  }

  datatype ModelError = ScoreOutOfRange | DocumentTooLarge

  /** The validation a manual score runs before every save. */
  function CleanManualScore(score: real): (r: Outcome<ModelError>)
    ensures r.Pass? <==> 0.0 <= score <= 10.0
    ensures r.Fail? ==> r.error == ScoreOutOfRange
  {
    if 0.0 <= score <= 10.0 then Pass else Fail(ScoreOutOfRange)
  }

  /** The size limit of an uploaded document: 5 MiB. */
  const MaxDocumentBytes: int := 5 * 1024 * 1024

  function CleanDocument(size: int): (r: Outcome<ModelError>)
    ensures r.Pass? <==> size <= 5242880
    ensures r.Fail? ==> r.error == DocumentTooLarge
  {
    if size > MaxDocumentBytes then Fail(DocumentTooLarge) else Pass
  }

  /** A row of the risk-assessment questionnaire table, as the manager's filters see it. */
  datatype QuestionnaireRow = QuestionnaireRow(id: int, status: Status)

  /** The rows with the given status, in table order, each as often as the table holds it. */
  function WithStatus(rows: seq<QuestionnaireRow>, s: Status): (r: seq<QuestionnaireRow>)
    ensures forall x :: x in r <==> x in rows && x.status == s
    ensures forall x :: multiset(r)[x] == if x.status == s then multiset(rows)[x] else 0
    ensures |r| <= |rows|
  {
    if |rows| == 0 then []
    else
      assert rows == [rows[0]] + rows[1..];
      (if rows[0].status == s then [rows[0]] else []) + WithStatus(rows[1..], s)
  }

  function GetPendingReviews(rows: seq<QuestionnaireRow>): (r: seq<QuestionnaireRow>)
    ensures forall x :: x in r <==> x in rows && x.status == Submitted
  {
    WithStatus(rows, Submitted)
  }

  function GetInProgress(rows: seq<QuestionnaireRow>): (r: seq<QuestionnaireRow>)
    ensures forall x :: x in r <==> x in rows && x.status == InProgress
  {
    WithStatus(rows, InProgress)
  }

  function GetCompleted(rows: seq<QuestionnaireRow>): (r: seq<QuestionnaireRow>)
    ensures forall x :: x in r <==> x in rows && x.status == Completed
  {
    WithStatus(rows, Completed)
  }

  /**
   * Every row has exactly one of the four statuses, so the three manager filters together
   * with the Under Review rows account for every row exactly once.
   */
  lemma {:induction false} FiltersPartitionRows(rows: seq<QuestionnaireRow>)
    ensures |GetInProgress(rows)| + |GetPendingReviews(rows)| + |WithStatus(rows, UnderReview)|
            + |GetCompleted(rows)| == |rows|
  {
    if |rows| > 0 {
      FiltersPartitionRows(rows[1..]);
    }
  }
}
