/**
 * The questionnaire workflow: the status transition table, the status guards of the views
 * and of the risk calculation, the ordering between the three questionnaires a vendor fills
 * in, and the completeness rule a submission must meet.
 */
module Workflow {
  import opened Wrappers
  import opened Models

  /** The targets the transition table lists for a status; a status not in the table lists none. */
  function Successors(kind: QuestionnaireKind, current: Status): (next: seq<Status>)
    ensures |next| <= 1
    ensures current !in StatusChoices(kind) ==> next == []
  {
    match kind
    case RiskAssessment =>
      (match current
       case InProgress => [Submitted]
       case Submitted => [UnderReview]
       case UnderReview => [Completed]
       case Completed => [])
    case _ =>
      (match current
       case InProgress => [Submitted]
       case _ => [])
  }

  datatype TransitionError = InvalidTransition(from: Status, to: Status)

  /** A transition is accepted exactly when the table lists the target for the current status. */
  function ValidateTransition(kind: QuestionnaireKind, current: Status, target: Status): (r: Outcome<TransitionError>)
    ensures r.Pass? <==> target in Successors(kind, current)
    ensures r.Fail? ==> r.error == InvalidTransition(current, target)
  {
    if target in Successors(kind, current) then Pass else Fail(InvalidTransition(current, target))
  }

  /** The position of a status along the risk-assessment chain. */
  function Rank(s: Status): nat
  {
    match s
    case InProgress => 0
    case Submitted => 1
    case UnderReview => 2
    case Completed => 3
  }

  /**
   * An independent reading of the table: a transition is valid exactly when it moves one step
   * forward along the chain, and for the corporate and contextual questionnaires only the step
   * to Submitted exists.
   */
  lemma TransitionIsOneStepForward(kind: QuestionnaireKind, current: Status, target: Status)
    ensures ValidateTransition(kind, current, target).Pass?
            <==> Rank(target) == Rank(current) + 1 && (kind == RiskAssessment || target == Submitted)
  {
  }

  /** Submitted ends the corporate and contextual questionnaires, Completed the risk assessment. */
  lemma EndStates(kind: QuestionnaireKind, target: Status)
    ensures kind != RiskAssessment ==> ValidateTransition(kind, Submitted, target).Fail?
    ensures ValidateTransition(kind, Completed, target).Fail?
  {
  }

  /** No status lists itself, and no transition goes backwards. */
  lemma NoSelfOrBackwardTransition(kind: QuestionnaireKind, current: Status, target: Status)
    requires Rank(target) <= Rank(current)
    ensures ValidateTransition(kind, current, target).Fail?
  {
    TransitionIsOneStepForward(kind, current, target);
  }

  /** Every consecutive pair of the history is a valid transition. */
  ghost predicate ValidHistory(kind: QuestionnaireKind, history: seq<Status>)
  {
    forall i :: 0 < i < |history| ==> ValidateTransition(kind, history[i - 1], history[i]).Pass?
  }

  /**
   * A history of valid transitions from the default status visits the chain in order: its i-th
   * status has rank i, so no status is ever revisited, and it holds at most four statuses.
   */
  lemma {:induction false} HistoryFollowsChain(kind: QuestionnaireKind, history: seq<Status>)
    requires |history| > 0 && history[0] == DefaultStatus && ValidHistory(kind, history)
    ensures forall i :: 0 <= i < |history| ==> Rank(history[i]) == i
    ensures |history| <= 4
    ensures kind != RiskAssessment ==> |history| <= 2
  {
    if |history| > 1 {
      var init := history[..|history| - 1];
      assert ValidHistory(kind, init) by {
        forall i | 0 < i < |init|
          ensures ValidateTransition(kind, init[i - 1], init[i]).Pass?
        {
          assert init[i - 1] == history[i - 1] && init[i] == history[i];
        }
      }
      HistoryFollowsChain(kind, init);
      var n := |history| - 1;
      assert ValidateTransition(kind, history[n - 1], history[n]).Pass?;
      TransitionIsOneStepForward(kind, history[n - 1], history[n]);
      assert Rank(history[n - 1]) == n - 1;
      assert Rank(history[n]) == n;
      assert forall i :: 0 <= i < n ==> history[i] == init[i];
    }
  }

  // ---------------------------------------------------------------------------------------
  // Status guards

  /** A risk-assessment questionnaire accepts answers only while In Progress. */
  function CanModify(status: Status): (ok: bool)
    ensures ok <==> ValidateTransition(RiskAssessment, status, Submitted).Pass?
  {
    status == InProgress
  }

  /** Review actions require a submitted questionnaire or one already under review. */
  function CanReview(status: Status): (ok: bool)
    ensures ok <==> Rank(status) == 1 || Rank(status) == 2
  {
    status in {Submitted, UnderReview}
  }

  /** The risk calculation runs only on a questionnaire under review. */
  function CanCalculate(status: Status): (ok: bool)
    ensures ok <==> ValidateTransition(RiskAssessment, status, Completed).Pass?
  {
    status == UnderReview
  }

  /** The corporate and contextual views refuse any post once their questionnaire is Submitted. */
  function AlreadySubmitted(status: Status): (done: bool)
    ensures done <==> ValidateTransition(Corporate, status, Submitted).Fail? && status in StatusChoices(Corporate)
  {
    status == Submitted
  }

  /** The guards nest: a questionnaire that may be calculated may be reviewed, and not modified. */
  lemma GuardsNest(status: Status)
    ensures CanCalculate(status) ==> CanReview(status) && !CanModify(status)
    ensures CanReview(status) ==> !CanModify(status)
  {
  }

  // ---------------------------------------------------------------------------------------
  // Ordering between the questionnaires

  datatype SequenceError = CorporateNotSubmitted | ContextualNotSubmitted

  /** The corporate questionnaire has no prerequisite. */
  function ValidateCorporateStatus(): (r: Outcome<SequenceError>)
    ensures r.Pass?
  {
    Pass
  }

  /** The contextual questionnaire needs one of the vendor's corporate questionnaires Submitted. */
  function ValidateContextualStatus(corporate: seq<Status>): (r: Outcome<SequenceError>)
    ensures r.Pass? <==> exists i :: 0 <= i < |corporate| && corporate[i] == Submitted
    ensures r.Fail? ==> r.error == CorporateNotSubmitted
  {
    if Submitted in corporate then Pass else Fail(CorporateNotSubmitted)
  }

  /** The risk assessment needs a corporate and then a contextual questionnaire Submitted. */
  function ValidateRiskAssessmentStatus(corporate: seq<Status>, contextual: seq<Status>): (r: Outcome<SequenceError>)
    ensures r.Pass? <==> Submitted in corporate && Submitted in contextual
    ensures Submitted !in corporate ==> r == Fail(CorporateNotSubmitted)
    ensures Submitted in corporate && Submitted !in contextual ==> r == Fail(ContextualNotSubmitted)
  {
    if Submitted !in corporate then Fail(CorporateNotSubmitted)
    else if Submitted !in contextual then Fail(ContextualNotSubmitted)
    else Pass
  }

  /** Access to the risk assessment implies access to the contextual questionnaire. */
  lemma RiskAccessImpliesContextualAccess(corporate: seq<Status>, contextual: seq<Status>)
    requires ValidateRiskAssessmentStatus(corporate, contextual).Pass?
    ensures ValidateContextualStatus(corporate).Pass?
  {
    var i :| 0 <= i < |corporate| && corporate[i] == Submitted;
  }

  // ---------------------------------------------------------------------------------------
  // Completeness

  /** Submission requires at least as many stored responses as there are questions. */
  function ValidateCompletion(answered: nat, total: nat): (complete: bool)
    ensures complete <==> !(answered < total)
  {
    answered >= total
  }

  /**
   * With no more answers than questions, a questionnaire is complete exactly when its progress
   * is 100, except that a questionnaire without questions is complete at progress 0.
   */
  lemma CompleteIffFullProgress(answered: nat, total: nat)
    requires answered <= total
    ensures ValidateCompletion(answered, total) <==> answered == total
    ensures 0 < total ==> (ValidateCompletion(answered, total) <==> Progress(answered, total) == 100.0)
    ensures total == 0 ==> ValidateCompletion(answered, total) && Progress(answered, total) == 0.0
  {
  }
}
