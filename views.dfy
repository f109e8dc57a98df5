/**
 * The post handlers of the questionnaire views, as the state changes they make: the corporate
 * save and submit, the contextual save and submit, the risk-assessment save and submit, and
 * the reviewer's score action. Each returns the error the view answers with, or success.
 *
 * Every handler runs in one database transaction. An exception that leaves the handler rolls
 * back everything it wrote; an error the handler catches or returns itself commits what was
 * written before it.
 */
module Views {
  import opened Wrappers
  import opened Json
  import opened Models
  import opened Records
  import Workflow
  import Requests
  import Contextual

  /** Why a post was refused, with the HTTP status the view answers. */
  datatype ViewError =
    | AlreadySubmitted                            // 400
    | NoResponses                                 // 400
    | NotFound                                    // 404, the transaction rolled back
    | Unexpected                                  // 500
    | Incomplete                                  // 400
    | InvalidWeights                              // 400
    | CannotModify                                // 400
    | InvalidRequest(cause: Requests.RequestError) // 400
    | InvalidSubmissionStatus                     // 400
    | InvalidScores(reason: Requests.ScoreError)  // 400

  /** A set of question ids as large as a superset is that superset. */
  lemma SubsetOfSameSize(a: set<int>, b: set<int>)
    requires a <= b && |a| >= |b|
    ensures a == b
  {
    assert b == a + (b - a);
    assert |b - a| == 0;
  }

  // ---------------------------------------------------------------------------------------
  // Corporate questionnaire

  /**
   * The items the answer loop iterates: the responses list, absent meaning empty. Iterating an
   * empty string or object yields nothing; a non-empty one yields strings, on which the loop's
   * `get` raises, and null, booleans and numbers cannot be iterated (None here).
   */
  function PostedItems(data: map<string, Value>): (r: Option<seq<Value>>)
    ensures "responses" !in data ==> r == Some([])
    ensures r.Some? && |r.value| > 0 ==> data["responses"] == List(r.value)
  {
    match Requests.GetOr(data, "responses", List([]))
    case List(items) => Some(items)
    case Str(text) => if |text| == 0 then Some([]) else None
    case Object(fields) => if |fields| == 0 then Some([]) else None
    case _ => None
  }

  /**
   * The fate of one posted corporate answer: an item that is not an object raises; a question
   * id that is absent, null or names no corporate question is a 404; one int() cannot convert
   * raises; and an absent or null response text raises, since the text column is not nullable.
   */
  function CorporateItemCheck(item: Value, questionIds: set<int>): (r: Outcome<ViewError>)
    ensures r.Pass? <==> ItemQuestion(item).Some? && ItemQuestion(item).value in questionIds
                         && !Requests.GetOr(item.fields, "response_text", Null).Null?
    ensures r.Fail? ==> r.error == NotFound || r.error == Unexpected
  {
    if !item.Object? then Fail(Unexpected)
    else
      match Requests.KeyOf(Requests.GetOr(item.fields, "question_id", Null))
      case NoKey => Fail(NotFound)
      case Unconvertible => Fail(Unexpected)
      case KeyId(id) =>
        if id !in questionIds then Fail(NotFound)
        else if Requests.GetOr(item.fields, "response_text", Null).Null? then Fail(Unexpected)
        else Pass
  }

  predicate AllAccepted(items: seq<Value>, questionIds: set<int>)
  {
    forall i :: 0 <= i < |items| ==> CorporateItemCheck(items[i], questionIds).Pass?
  }

  /** Item i is the first one the answer loop fails on. */
  ghost predicate FirstRejected(items: seq<Value>, questionIds: set<int>, i: int)
  {
    && 0 <= i < |items|
    && CorporateItemCheck(items[i], questionIds).Fail?
    && forall j :: 0 <= j < i ==> CorporateItemCheck(items[j], questionIds).Pass?
  }

  /** The questions the items name. */
  function PostedQuestions(items: seq<Value>): set<int>
  {
    if |items| == 0 then {}
    else
      var id := ItemQuestion(items[|items| - 1]);
      PostedQuestions(items[..|items| - 1]) + (if id.Some? then {id.value} else {})
  }

  /**
   * The answer loop both corporate views share: each posted question is looked up and its
   * response created or updated. It stops at the first item it fails on, with that item's error.
   */
  method StoreCorporateAnswers(q: CorporateQuestionnaire, questionIds: set<int>, items: seq<Value>)
    returns (r: Outcome<ViewError>)
    modifies q
    ensures r.Pass? <==> AllAccepted(items, questionIds)
    ensures r.Fail? ==> exists i :: FirstRejected(items, questionIds, i) && r == CorporateItemCheck(items[i], questionIds)
    ensures r.Pass? ==> q.answered == old(q.answered) + PostedQuestions(items) && PostedQuestions(items) <= questionIds
    ensures q.status == old(q.status) && q.progress == old(q.progress)
  {
    var k := 0;
    while k < |items|
      invariant 0 <= k <= |items|
      invariant AllAccepted(items[..k], questionIds)
      invariant q.answered == old(q.answered) + PostedQuestions(items[..k]) && PostedQuestions(items[..k]) <= questionIds
      invariant q.status == old(q.status) && q.progress == old(q.progress)
    {
      var check := CorporateItemCheck(items[k], questionIds);
      if check.Fail? {
        assert forall j :: 0 <= j < k ==> items[..k][j] == items[j];
        assert FirstRejected(items, questionIds, k);
        return check;
      }
      var id := ItemQuestion(items[k]).value;
      assert items[..k + 1] == items[..k] + [items[k]];
      assert items[..k + 1][..k] == items[..k];
      q.answered := q.answered + {id};
      k := k + 1;
    }
    assert items[..k] == items;
    return Pass;
  }

  /**
   * The corporate save: refused once Submitted; responses the loop cannot iterate raise, and
   * the first item the loop fails on decides the error and rolls back; otherwise the answers are
   * stored and the progress recomputed over all corporate questions, unguarded: with no
   * corporate question at all the division raises and rolls back.
   */
  method CorporateSave(q: CorporateQuestionnaire, questionIds: set<int>, data: map<string, Value>)
    returns (r: Outcome<ViewError>)
    modifies q
    ensures old(q.status) == Submitted ==> r == Fail(AlreadySubmitted)
    ensures old(q.status) != Submitted && PostedItems(data).None? ==> r == Fail(Unexpected)
    ensures old(q.status) != Submitted && PostedItems(data).Some? && !AllAccepted(PostedItems(data).value, questionIds) ==>
              exists i :: FirstRejected(PostedItems(data).value, questionIds, i)
                          && r == CorporateItemCheck(PostedItems(data).value[i], questionIds)
    ensures r.Pass? <==> old(q.status) != Submitted && PostedItems(data).Some?
                         && AllAccepted(PostedItems(data).value, questionIds) && |questionIds| > 0
    ensures r.Fail? ==> q.answered == old(q.answered) && q.progress == old(q.progress)
    ensures r.Pass? ==> q.answered == old(q.answered) + PostedQuestions(PostedItems(data).value)
                        && q.progress == Progress(|q.answered|, |questionIds|)
    ensures q.status == old(q.status)
  {
    if q.status == Submitted {
      return Fail(AlreadySubmitted);
    }
    var items := PostedItems(data);
    if items.None? {
      return Fail(Unexpected);
    }
    var snapshot := q.answered;
    r := StoreCorporateAnswers(q, questionIds, items.value);
    if r.Fail? {
      q.answered := snapshot;
      return r;
    }
    var totalQuestions := |questionIds|;
    var answeredQuestions := |q.answered|;
    if totalQuestions == 0 {
      q.answered := snapshot;
      return Fail(Unexpected);
    }
    q.progress := (answeredQuestions as real / totalQuestions as real) * 100.0;
    return Pass;
  }

  /**
   * The corporate submit: as the save up to the stored answers, then refused while fewer
   * responses than corporate questions are stored (the answers stay); otherwise progress 100
   * and status Submitted. Since responses only refer to corporate questions, a submitted
   * questionnaire has an answer to every one of them.
   */
  method CorporateSubmit(q: CorporateQuestionnaire, questionIds: set<int>, data: map<string, Value>)
    returns (r: Outcome<ViewError>)
    requires q.Valid() && q.answered <= questionIds
    modifies q
    ensures q.Valid() && q.answered <= questionIds
    ensures old(q.status) == Submitted ==> r == Fail(AlreadySubmitted)
    ensures old(q.status) != Submitted && PostedItems(data).None? ==> r == Fail(Unexpected)
    ensures old(q.status) != Submitted && PostedItems(data).Some? && !AllAccepted(PostedItems(data).value, questionIds) ==>
              exists i :: FirstRejected(PostedItems(data).value, questionIds, i)
                          && r == CorporateItemCheck(PostedItems(data).value[i], questionIds)
    ensures r.Fail? && r.error != Incomplete ==> q.answered == old(q.answered)
    ensures old(q.status) != Submitted && PostedItems(data).Some? && AllAccepted(PostedItems(data).value, questionIds) ==>
              q.answered == old(q.answered) + PostedQuestions(PostedItems(data).value)
              && (r == Fail(Incomplete) <==> |q.answered| < |questionIds|)
              && (r.Pass? <==> |q.answered| == |questionIds|)
    ensures r.Pass? ==> q.status == Submitted && q.progress == 100.0 && q.answered == questionIds
    ensures r.Fail? ==> q.status == old(q.status) && q.progress == old(q.progress)
  {
    if q.status == Submitted {
      return Fail(AlreadySubmitted);
    }
    var items := PostedItems(data);
    if items.None? {
      return Fail(Unexpected);
    }
    var snapshot := q.answered;
    r := StoreCorporateAnswers(q, questionIds, items.value);
    if r.Fail? {
      q.answered := snapshot;
      return r;
    }
    var totalQuestions := |questionIds|;
    var answeredQuestions := |q.answered|;
    if answeredQuestions < totalQuestions {
      return Fail(Incomplete);
    }
    SubsetOfSameSize(q.answered, questionIds);
    q.progress := 100.0;
    q.status := Submitted;
    return Pass;
  }

  // ---------------------------------------------------------------------------------------
  // Contextual questionnaire

  /** One posted answer: a question id and the id of the selected choice. */
  datatype ContextualAnswer = ContextualAnswer(question: int, choice: int)

  /** The question and the choice both exist (weights by question id, modifiers by choice id). */
  predicate Known(a: ContextualAnswer, weights: map<int, real>, modifiers: map<int, real>)
  {
    a.question in weights && a.choice in modifiers
  }

  predicate AllKnown(answers: seq<ContextualAnswer>, weights: map<int, real>, modifiers: map<int, real>)
  {
    forall i :: 0 <= i < |answers| ==> Known(answers[i], weights, modifiers)
  }

  /** The selected choice per question after storing the answers in turn. */
  function Select(selected: map<int, int>, answers: seq<ContextualAnswer>): map<int, int>
  {
    if |answers| == 0 then selected
    else
      var last := answers[|answers| - 1];
      Select(selected, answers[..|answers| - 1])[last.question := last.choice]
  }

  /** Storing answers keeps every selection and adds exactly the answered questions. */
  lemma {:induction false} SelectKeys(selected: map<int, int>, answers: seq<ContextualAnswer>)
    ensures Select(selected, answers).Keys == selected.Keys + set i | 0 <= i < |answers| :: answers[i].question
  {
    if |answers| > 0 {
      var init := answers[..|answers| - 1];
      SelectKeys(selected, init);
      assert (set i | 0 <= i < |answers| :: answers[i].question)
             == (set i | 0 <= i < |init| :: init[i].question) + {answers[|answers| - 1].question};
    }
  }

  /** The (weight, modifier) of each answer saved by this request, in request order, repeats included. */
  function Saved(answers: seq<ContextualAnswer>, weights: map<int, real>, modifiers: map<int, real>)
    : (rs: seq<ContextualResponse>)
    requires AllKnown(answers, weights, modifiers)
    ensures |rs| == |answers|
    ensures forall i :: 0 <= i < |answers| ==>
              rs[i] == ContextualResponse(weights[answers[i].question], modifiers[answers[i].choice])
  {
    if |answers| == 0 then []
    else
      var last := answers[|answers| - 1];
      Saved(answers[..|answers| - 1], weights, modifiers) + [ContextualResponse(weights[last.question], modifiers[last.choice])]
  }

  /** One more stored answer, for the loop of the contextual post. */
  lemma ContextualStep(q0: map<int, int>, answers: seq<ContextualAnswer>, k: nat,
                       weights: map<int, real>, modifiers: map<int, real>)
    requires k < |answers| && AllKnown(answers[..k + 1], weights, modifiers)
    ensures AllKnown(answers[..k], weights, modifiers)
    ensures Select(q0, answers[..k + 1]) == Select(q0, answers[..k])[answers[k].question := answers[k].choice]
    ensures Saved(answers[..k + 1], weights, modifiers)
            == Saved(answers[..k], weights, modifiers)
               + [ContextualResponse(weights[answers[k].question], modifiers[answers[k].choice])]
  {
    assert answers[..k + 1][..k] == answers[..k];
  }

  /**
   * The answer loop of the contextual post: each answer's question and choice are looked up
   * and its response created or updated. It stops at the first unknown one, whose lookup
   * raises, keeping the responses stored before it.
   */
  method StoreContextualAnswers(q: ContextualQuestionnaire, weights: map<int, real>, modifiers: map<int, real>,
                                requested: seq<ContextualAnswer>)
    returns (saved: Option<seq<ContextualResponse>>)
    modifies q
    ensures saved.Some? <==> AllKnown(requested, weights, modifiers)
    ensures saved.Some? ==> q.selected == Select(old(q.selected), requested)
                            && saved.value == Saved(requested, weights, modifiers)
    ensures saved.None? ==>
              exists k :: 0 <= k < |requested| && !Known(requested[k], weights, modifiers)
                          && AllKnown(requested[..k], weights, modifiers)
                          && q.selected == Select(old(q.selected), requested[..k])
    ensures q.status == old(q.status) && q.progress == old(q.progress) && q.modifier == old(q.modifier)
  {
    var responses: seq<ContextualResponse> := [];
    var k := 0;
    while k < |requested|
      invariant 0 <= k <= |requested|
      invariant AllKnown(requested[..k], weights, modifiers)
      invariant q.selected == Select(old(q.selected), requested[..k])
      invariant responses == Saved(requested[..k], weights, modifiers)
      invariant q.status == old(q.status) && q.progress == old(q.progress) && q.modifier == old(q.modifier)
    {
      var answer := requested[k];
      if answer.question !in weights || answer.choice !in modifiers {
        return None;
      }
      assert AllKnown(requested[..k + 1], weights, modifiers);
      ContextualStep(old(q.selected), requested, k, weights, modifiers);
      q.selected := q.selected[answer.question := answer.choice];
      responses := responses + [ContextualResponse(weights[answer.question], modifiers[answer.choice])];
      k := k + 1;
    }
    assert requested[..k] == requested;
    return Some(responses);
  }

  /**
   * The end of the contextual post, once the answers are stored: the progress over all
   * contextual questions, and on submit the completeness check, the modifier over the saved
   * responses and the status. Progress is written only on success.
   */
  method FinishContextualPost(q: ContextualQuestionnaire, totalQuestions: nat, saved: seq<ContextualResponse>,
                              submit: bool)
    returns (r: Result<Option<real>, ViewError>)
    requires q.Valid()
    modifies q
    ensures q.Valid() && q.selected == old(q.selected)
    ensures r == Err(Incomplete) <==> submit && !Workflow.ValidateCompletion(|q.selected|, totalQuestions)
    ensures r == Err(InvalidWeights) <==>
              submit && Workflow.ValidateCompletion(|q.selected|, totalQuestions) && Contextual.RiskModifier(saved).Err?
    ensures r.Err? ==> r == Err(Incomplete) || r == Err(InvalidWeights)
    ensures r.Ok? ==> q.progress == Progress(|q.selected|, totalQuestions)
    ensures r.Ok? && submit ==>
              Contextual.RiskModifier(saved).Ok? && r.value == Some(Contextual.RiskModifier(saved).value)
              && q.modifier == r.value && q.status == Submitted
    ensures r.Ok? && !submit ==> r.value == None && q.modifier == old(q.modifier) && q.status == old(q.status)
    ensures r.Err? ==> q.status == old(q.status) && q.progress == old(q.progress) && q.modifier == old(q.modifier)
  {
    var answeredQuestions := |q.selected|;
    var progress := Progress(answeredQuestions, totalQuestions);  // the view's calculate_progress
    if submit {
      if !Workflow.ValidateCompletion(answeredQuestions, totalQuestions) {
        return Err(Incomplete);
      }
      var riskModifier := Contextual.CalculateRiskModifier(saved);
      if riskModifier.Err? {
        return Err(InvalidWeights);
      }
      q.modifier := Some(riskModifier.value);
      q.status := Submitted;
      q.progress := progress;
      return Ok(Some(riskModifier.value));
    }
    q.progress := progress;
    return Ok(None);
  }

  /**
   * The contextual post. Refused once Submitted, and refused without answers. Each answer's
   * question and choice are looked up and its response created or updated; an unknown one
   * raises, which the view reports as a 500 while the responses stored before it stay. Then
   * the progress is recomputed. On submit, an incomplete questionnaire is refused, and the
   * modifier computed over this request's saved responses is stored, zero total weight being
   * refused, and the status becomes Submitted. Progress is written only when the post succeeds.
   */
  method ContextualPost(q: ContextualQuestionnaire, weights: map<int, real>, modifiers: map<int, real>,
                        requested: seq<ContextualAnswer>, submit: bool)
    returns (r: Result<Option<real>, ViewError>)
    requires q.Valid()
    modifies q
    ensures q.Valid()
    ensures old(q.status) == Submitted ==> r == Err(AlreadySubmitted)
    ensures old(q.status) != Submitted && |requested| == 0 ==> r == Err(NoResponses)
    ensures r == Err(AlreadySubmitted) || r == Err(NoResponses) ==> q.selected == old(q.selected)
    ensures r == Err(Unexpected) <==> old(q.status) != Submitted && |requested| > 0
                                       && !AllKnown(requested, weights, modifiers)
    ensures r == Err(Unexpected) ==>
              exists k :: 0 <= k < |requested| && !Known(requested[k], weights, modifiers)
                          && AllKnown(requested[..k], weights, modifiers)
                          && q.selected == Select(old(q.selected), requested[..k])
    ensures old(q.status) != Submitted && |requested| > 0 && AllKnown(requested, weights, modifiers) ==>
              q.selected == Select(old(q.selected), requested)
              && (r == Err(Incomplete) <==> submit && !Workflow.ValidateCompletion(|q.selected|, |weights|))
              && (r == Err(InvalidWeights) <==>
                    submit && Workflow.ValidateCompletion(|q.selected|, |weights|)
                    && Contextual.RiskModifier(Saved(requested, weights, modifiers)).Err?)
    ensures r.Ok? ==> q.progress == Progress(|q.selected|, |weights|)
    ensures r.Ok? && submit ==>
              AllKnown(requested, weights, modifiers)
              && Contextual.RiskModifier(Saved(requested, weights, modifiers)).Ok?
              && r.value == Some(Contextual.RiskModifier(Saved(requested, weights, modifiers)).value)
              && q.modifier == r.value && q.status == Submitted
    ensures r.Ok? && !submit ==> r.value == None && q.modifier == old(q.modifier) && q.status == old(q.status)
    ensures r.Err? ==> q.status == old(q.status) && q.progress == old(q.progress) && q.modifier == old(q.modifier)
  {
    if q.status == Submitted {
      return Err(AlreadySubmitted);
    }
    if |requested| == 0 {
      return Err(NoResponses);
    }
    var saved := StoreContextualAnswers(q, weights, modifiers, requested);
    if saved.None? {
      return Err(Unexpected);
    }
    r := FinishContextualPost(q, |weights|, saved.value, submit);
  }

  // ---------------------------------------------------------------------------------------
  // Risk-assessment questionnaire

  /** The question id of a posted item, when it converts to one. */
  function ItemQuestion(item: Value): Option<int>
  {
    if !item.Object? then None
    else
      match Requests.KeyOf(Requests.GetOr(item.fields, "question_id", Null))
      case KeyId(id) => Some(id)
      case _ => None
  }

  /** The choice of a question with a given id. */
  function ChoiceWithId(choices: seq<QuestionChoice>, id: int): (c: Option<QuestionChoice>)
    ensures c.Some? ==> c.value in choices && c.value.id == id
    ensures c.None? ==> forall x :: x in choices ==> x.id != id
  {
    if |choices| == 0 then None
    else if choices[0].id == id then Some(choices[0])
    else ChoiceWithId(choices[1..], id)
  }

  /**
   * The stored response after one accepted answer: the column of the question's type is
   * written, the other columns keep their value, or are empty for a new response.
   */
  function Answered(previous: Option<RiskAssessmentResponse>, q: Question, fields: map<string, Value>)
    : RiskAssessmentResponse
  {
    var base := if previous.Some? then previous.value else RiskAssessmentResponse(None, None, None);
    var answer := Requests.GetOr(fields, "answer", Null);
    match q.qtype
    case YesNo => base.(yesNo := if answer.Bool? then Some(answer.b) else None)
    case MultipleChoice =>
      var choice := Requests.KeyOf(Requests.GetOr(fields, "choice_id", Null));
      base.(selectedChoice := if choice.KeyId? then ChoiceWithId(q.choices, choice.id) else None)
    case ShortAnswer => base.(text := if answer.Str? then Some(answer.s) else None)
    case FileUpload => base
  }

  /** The responses after storing one item; an item validation rejects changes nothing. */
  function StoreAnswer(responses: map<int, RiskAssessmentResponse>, questions: map<int, Question>, item: Value)
    : map<int, RiskAssessmentResponse>
  {
    if Requests.ValidateItem(questions, item).Fail? then responses
    else
      var id := ItemQuestion(item).value;
      responses[id := Answered(if id in responses then Some(responses[id]) else None, questions[id], item.fields)]
  }

  function StoreAnswers(responses: map<int, RiskAssessmentResponse>, questions: map<int, Question>, items: seq<Value>)
    : map<int, RiskAssessmentResponse>
  {
    if |items| == 0 then responses
    else StoreAnswer(StoreAnswers(responses, questions, items[..|items| - 1]), questions, items[|items| - 1])
  }

  /**
   * Storing answers keeps every stored response, adds one for each accepted item's question,
   * and never adds one for a question that does not exist.
   */
  lemma {:induction false} StoreAnswersKeys(responses: map<int, RiskAssessmentResponse>, questions: map<int, Question>,
                                            items: seq<Value>)
    ensures responses.Keys <= StoreAnswers(responses, questions, items).Keys <= responses.Keys + questions.Keys
    ensures forall i :: 0 <= i < |items| && Requests.ValidateItem(questions, items[i]).Pass? ==>
              ItemQuestion(items[i]).Some? && ItemQuestion(items[i]).value in StoreAnswers(responses, questions, items)
  {
    if |items| > 0 {
      var init := items[..|items| - 1];
      StoreAnswersKeys(responses, questions, init);
      forall i | 0 <= i < |items| - 1
        ensures items[i] == init[i]
      {
      }
    }
  }

  /** The answer loop of the risk-assessment post, over items validation accepted. */
  method StoreRiskAssessmentAnswers(q: RiskAssessmentQuestionnaire, questions: map<int, Question>, items: seq<Value>)
    requires forall i :: 0 <= i < |items| ==> Requests.ValidateItem(questions, items[i]).Pass?
    requires q.responses.Keys <= questions.Keys
    modifies q
    ensures q.responses == StoreAnswers(old(q.responses), questions, items)
    ensures q.responses.Keys <= questions.Keys
    ensures q.status == old(q.status) && q.progress == old(q.progress)
  {
    var k := 0;
    while k < |items|
      invariant 0 <= k <= |items|
      invariant q.responses == StoreAnswers(old(q.responses), questions, items[..k])
      invariant q.responses.Keys <= questions.Keys
      invariant q.status == old(q.status) && q.progress == old(q.progress)
    {
      assert items[..k + 1][..k] == items[..k];
      var item := items[k];
      var id := ItemQuestion(item).value;
      var previous := if id in q.responses then Some(q.responses[id]) else None;
      q.responses := q.responses[id := Answered(previous, questions[id], item.fields)];
      k := k + 1;
    }
    assert items[..k] == items;
  }

  /** With at least one question, the unguarded quotient is the progress percentage. */
  lemma UnguardedProgress(answered: nat, total: nat)
    requires total > 0
    ensures (answered as real / total as real) * 100.0 == Progress(answered, total)
  {
  }

  /** submit taken as Python truthiness, absent meaning false. */
  predicate SubmitRequested(data: map<string, Value>)
  {
    Requests.Truthy(Requests.GetOr(data, "submit", Bool(false)))
  }

  /**
   * The risk-assessment post. Refused unless In Progress, and refused when the request fails
   * validation; a validation that raises instead (responses not a list of objects, an id int()
   * cannot convert) is caught as an unexpected error. Either way nothing is written. Otherwise every answer is stored, so the lookups that follow cannot fail, and
   * the progress is recomputed; the division it makes is unguarded but safe, because an
   * accepted request names at least one question. On submit, an incomplete questionnaire is
   * refused with its answers kept, and otherwise the transition to Submitted is checked and
   * made. Progress is written only when the post succeeds.
   */
  method RiskAssessmentPost(q: RiskAssessmentQuestionnaire, questions: map<int, Question>, data: map<string, Value>)
    returns (r: Outcome<ViewError>)
    requires q.Valid() && q.responses.Keys <= questions.Keys
    modifies q
    ensures q.Valid() && q.responses.Keys <= questions.Keys
    ensures !Workflow.CanModify(old(q.status)) ==> r == Fail(CannotModify)
    ensures Workflow.CanModify(old(q.status)) && Requests.ValidateRequestData(questions, data).Fail? ==>
              var e := Requests.ValidateRequestData(questions, data).error;
              r == (if Requests.Raises(e) then Fail(Unexpected) else Fail(InvalidRequest(e)))
    ensures r.Fail? && r.error != Incomplete ==> q.responses == old(q.responses)
    ensures Workflow.CanModify(old(q.status)) && Requests.ValidateRequestData(questions, data).Pass? ==>
              q.responses == StoreAnswers(old(q.responses), questions, data["responses"].items)
              && (r == Fail(Incomplete) <==> SubmitRequested(data) && |q.responses| < |questions|)
              && (r.Pass? <==> !(SubmitRequested(data) && |q.responses| < |questions|))
    ensures r.Pass? ==> q.progress == Progress(|q.responses|, |questions|)
    ensures r.Pass? && SubmitRequested(data) ==> q.status == Submitted && q.responses.Keys == questions.Keys
    ensures r.Pass? && !SubmitRequested(data) ==> q.status == old(q.status)
    ensures r.Fail? ==> q.status == old(q.status) && q.progress == old(q.progress)
  {
    if !Workflow.CanModify(q.status) {
      return Fail(CannotModify);
    }
    var validation := Requests.ValidateRequestData(questions, data);
    if validation.Fail? {
      if Requests.Raises(validation.error) {
        return Fail(Unexpected);
      }
      return Fail(InvalidRequest(validation.error));
    }
    Requests.RequestAcceptedIff(questions, data);
    var items := data["responses"].items;
    StoreRiskAssessmentAnswers(q, questions, items);
    StoreAnswersKeys(old(q.responses), questions, items);
    assert Requests.ValidateItem(questions, items[0]).Pass?;
    var totalQuestions := |questions|;
    assert ItemQuestion(items[0]).value in questions;
    var answeredQuestions := |q.responses|;
    var progress := (answeredQuestions as real / totalQuestions as real) * 100.0;
    UnguardedProgress(answeredQuestions, totalQuestions);
    if SubmitRequested(data) {
      if answeredQuestions < totalQuestions {
        return Fail(Incomplete);
      }
      assert Workflow.ValidateTransition(RiskAssessment, q.status, Submitted).Pass?;
      SubsetOfSameSize(q.responses.Keys, questions.Keys);
      q.status := Submitted;
    }
    q.progress := progress;
    return Pass;
  }

  // ---------------------------------------------------------------------------------------
  // The reviewer's score action

  /** The question id and the converted score of a score item, when it has both. */
  function ScoreOf(item: Value): Option<(int, real)>
  {
    if !(item.Object? && "score" in item.fields) then None
    else
      var id := ItemQuestion(item);
      var score := Requests.FloatOf(item.fields["score"]);
      if id.Some? && score.Some? then Some((id.value, score.value)) else None
  }

  /** The manual scores after saving each item of a batch in turn. */
  function StoreScores(scores: map<int, real>, items: seq<Value>): map<int, real>
  {
    if |items| == 0 then scores
    else
      var init := StoreScores(scores, items[..|items| - 1]);
      match ScoreOf(items[|items| - 1])
      case Some((id, score)) => init[id := score]
      case None => init
  }

  /** A validated score item is an object with a score float() converts into [0, 10]. */
  lemma ValidatedScoreItem(item: Value)
    requires Requests.ValidateScoreItem(item).Pass?
    ensures item.Object? && "score" in item.fields && Requests.FloatOf(item.fields["score"]).Some?
    ensures 0.0 <= Requests.FloatOf(item.fields["score"]).value <= 10.0
    ensures ScoreOf(item) == if ItemQuestion(item).Some?
                             then Some((ItemQuestion(item).value, Requests.FloatOf(item.fields["score"]).value))
                             else None
  {
  }

  /** One step of a batch save: the next item's score written over the scores so far. */
  lemma StoreScoresStep(scores: map<int, real>, items: seq<Value>, k: nat, id: int, score: real)
    requires k < |items| && ScoreOf(items[k]) == Some((id, score))
    ensures StoreScores(scores, items[..k + 1]) == StoreScores(scores, items[..k])[id := score]
  {
    assert items[..k + 1][..k] == items[..k];
  }

  /**
   * The item's comment, when it has one, is not null. `comment` is a NOT NULL text column, so
   * saving a null comment fails in the database, whether the score is created or updated.
   */
  predicate CommentOk(item: Value)
  {
    !(item.Object? && "comment" in item.fields && item.fields["comment"].Null?)
  }

  /** Every item names a question that exists and carries no null comment: every save succeeds. */
  predicate ScoresSavable(items: seq<Value>, questionIds: set<int>)
  {
    forall i {:trigger ItemQuestion(items[i])} :: 0 <= i < |items| ==>
      ItemQuestion(items[i]).Some? && ItemQuestion(items[i]).value in questionIds && CommentOk(items[i])
  }

  /** One more item that saves: the longer prefix saves. */
  lemma ScoresSavableStep(items: seq<Value>, questionIds: set<int>, k: nat)
    requires k < |items| && ScoresSavable(items[..k], questionIds)
    requires ItemQuestion(items[k]).Some? && ItemQuestion(items[k]).value in questionIds && CommentOk(items[k])
    ensures ScoresSavable(items[..k + 1], questionIds)
  {
    var longer := items[..k + 1];
    forall i | 0 <= i < |longer|
      ensures ItemQuestion(longer[i]).Some? && ItemQuestion(longer[i]).value in questionIds && CommentOk(longer[i])
    {
      if i < k {
        assert longer[i] == items[..k][i];
      } else {
        assert longer[i] == items[k];
      }
    }
  }

  /** Saving a batch that passed validation keeps every stored score within [0, 10]. */
  lemma {:induction false} StoredScoresWithin(scores: map<int, real>, items: seq<Value>)
    requires forall q :: q in scores ==> 0.0 <= scores[q] <= 10.0
    requires Requests.ValidateScoreBatch(items).Pass?
    ensures forall q :: q in StoreScores(scores, items) ==> 0.0 <= StoreScores(scores, items)[q] <= 10.0
  {
    if |items| > 0 {
      var init := items[..|items| - 1];
      assert forall i :: 0 <= i < |init| ==> init[i] == items[i];
      StoredScoresWithin(scores, init);
      assert Requests.ValidateScoreItem(items[|items| - 1]).Pass?;
    }
  }

  /**
   * What the loops over `request.data.get('scores', [])` iterate: a list its items, a string its
   * characters and an object its keys. Null, a number or a boolean cannot be iterated.
   */
  datatype ScoreIteration =
    | Items(items: seq<Value>)
    | Keys(keys: set<string>)  // a non-empty object's keys, in an insertion order the model's objects do not keep
    | NotIterable

  /** Iterating a string: each character as a string of its own. */
  function Characters(text: string): (r: seq<Value>)
    ensures |r| == |text|
    ensures forall i :: 0 <= i < |text| ==> r[i] == Str([text[i]])
  {
    if |text| == 0 then [] else [Str([text[0]])] + Characters(text[1..])
  }

  /** A one-character string is too short to hold either key, so the key test rejects it. */
  lemma {:induction false} CharacterScoresRejected(text: string)
    requires |text| > 0
    ensures Requests.ValidateScoreBatch(Characters(text)) == Fail(Requests.InvalidScoreFormat)
  {
    var items := Characters(text);
    assert !Requests.Occurs("question_id", [text[0]]);
    assert Requests.ValidateScoreItem(items[0]).Fail?;
    Requests.ScoreBatchRejectsFirstOffender(items);
    var i :| 0 <= i < |items| && Requests.ValidateScoreItem(items[i]) == Requests.ValidateScoreBatch(items);
    assert !Requests.Occurs("question_id", [text[i]]);
  }

  /** The posted `scores` value as the loops iterate it; an absent value is the empty list. */
  function ScoreIterationOf(data: map<string, Value>): (r: ScoreIteration)
    ensures "scores" !in data ==> r == Items([])
    ensures r.NotIterable? <==> "scores" in data && (data["scores"].Null? || data["scores"].Bool? || data["scores"].Number?)
    ensures r.Keys? <==> "scores" in data && data["scores"].Object? && |data["scores"].fields| > 0
    ensures r.Keys? ==> r.keys == data["scores"].fields.Keys
    ensures "scores" in data && data["scores"].List? ==> r == Items(data["scores"].items)
    ensures "scores" in data && data["scores"].Str? && |data["scores"].s| > 0 ==>
              r.Items? && Requests.ValidateScoreBatch(r.items) == Fail(Requests.InvalidScoreFormat)
  {
    match Requests.GetOr(data, "scores", List([]))
    case List(items) => Items(items)
    case Str(text) =>
      if |text| == 0 then Items([])
      else CharacterScoresRejected(text); Items(Characters(text))
    case Object(fields) => if |fields| == 0 then Items([]) else Keys(fields.Keys)
    case _ => NotIterable
  }

  /** The response for a rejected batch: 400, or 500 when the check itself raised. */
  function ScoreFailure(e: Requests.ScoreError): ViewError
  {
    if Requests.ScoreRaises(e) then Unexpected else InvalidScores(e)
  }

  /**
   * The score action. Refused unless the submission is Submitted or Under Review. A `scores`
   * value that cannot be iterated raises. A non-empty object iterates its keys, and the check
   * stops at the first, since a string is never a valid item; which key comes first depends on
   * the insertion order. A list, or a string's characters, is handled by ScoreBatch.
   */
  method SubmitScores(submission: RiskAssessmentQuestionnaire, review: Review, questionIds: set<int>,
                      data: map<string, Value>)
    returns (r: Outcome<ViewError>)
    requires review.Valid()
    modifies review
    ensures review.Valid()
    ensures !Workflow.CanReview(submission.status) ==> r == Fail(InvalidSubmissionStatus)
    ensures Workflow.CanReview(submission.status) && ScoreIterationOf(data).NotIterable? ==> r == Fail(Unexpected)
    ensures Workflow.CanReview(submission.status) && ScoreIterationOf(data).Keys? ==>
              exists key :: key in ScoreIterationOf(data).keys
                            && r == Fail(if Requests.Occurs("question_id", key) && Requests.Occurs("score", key)
                                         then Unexpected else InvalidScores(Requests.InvalidScoreFormat))
    ensures Workflow.CanReview(submission.status) && ScoreIterationOf(data).Items?
            && Requests.ValidateScoreBatch(ScoreIterationOf(data).items).Fail? ==>
              r == Fail(ScoreFailure(Requests.ValidateScoreBatch(ScoreIterationOf(data).items).error))
    ensures r.Pass? <==> Workflow.CanReview(submission.status) && ScoreIterationOf(data).Items?
                         && Requests.ValidateScoreBatch(ScoreIterationOf(data).items).Pass?
                         && ScoresSavable(ScoreIterationOf(data).items, questionIds)
    ensures r.Fail? ==> review.scores == old(review.scores)
    ensures r.Pass? ==> review.scores == StoreScores(old(review.scores), ScoreIterationOf(data).items)
  {
    if !Workflow.CanReview(submission.status) {
      return Fail(InvalidSubmissionStatus);
    }
    match ScoreIterationOf(data)
    case NotIterable =>
      return Fail(Unexpected);
    case Keys(keys) =>
      assert keys == data["scores"].fields.Keys;
      var first :| first in keys;
      var check := Requests.ValidateScoreItem(Str(first));
      return Fail(ScoreFailure(check.error));
    case Items(items) =>
      r := ScoreBatch(review, questionIds, items);
  }

  /**
   * The score action on the items of a batch. The whole batch is validated before any score is
   * saved, so a rejected batch saves nothing; a check that raises (an item that is not an
   * object, a score float() cannot convert) answers an unexpected error. Then each score is
   * saved for its question, created or updated.
   */
  method ScoreBatch(review: Review, questionIds: set<int>, items: seq<Value>) returns (r: Outcome<ViewError>)
    requires review.Valid()
    modifies review
    ensures review.Valid()
    ensures Requests.ValidateScoreBatch(items).Fail? ==> r == Fail(ScoreFailure(Requests.ValidateScoreBatch(items).error))
    ensures Requests.ValidateScoreBatch(items).Pass? && !ScoresSavable(items, questionIds) ==> r == Fail(Unexpected)
    ensures r.Pass? <==> Requests.ValidateScoreBatch(items).Pass? && ScoresSavable(items, questionIds)
    ensures r.Fail? ==> review.scores == old(review.scores)
    ensures r.Pass? ==> review.scores == StoreScores(old(review.scores), items)
  {
    var validation := Requests.ValidateScoreBatch(items);
    if validation.Fail? {
      return Fail(ScoreFailure(validation.error));
    }
    r := SaveScoreBatch(review, questionIds, items);
  }

  /**
   * The save loop of the score action over a validated batch: each score saved in turn. The
   * first item whose question does not exist, or whose comment is null, fails its save and
   * rolls the batch back.
   */
  method SaveScoreBatch(review: Review, questionIds: set<int>, items: seq<Value>) returns (r: Outcome<ViewError>)
    requires review.Valid()
    requires forall i {:trigger Requests.ValidateScoreItem(items[i])} :: 0 <= i < |items| ==> Requests.ValidateScoreItem(items[i]).Pass?
    modifies review
    ensures review.Valid()
    ensures r.Pass? <==> ScoresSavable(items, questionIds)
    ensures r.Fail? ==> r == Fail(Unexpected) && review.scores == old(review.scores)
    ensures r.Pass? ==> review.scores == StoreScores(old(review.scores), items)
  {
    var snapshot := review.scores;
    var k := 0;
    while k < |items|
      invariant 0 <= k <= |items|
      invariant review.Valid()
      invariant ScoresSavable(items[..k], questionIds)
      invariant review.scores == StoreScores(snapshot, items[..k])
    {
      var item := items[k];
      ValidatedScoreItem(item);
      var id := ItemQuestion(item);
      if id.None? || id.value !in questionIds || !CommentOk(item) {
        review.scores := snapshot;
        return Fail(Unexpected);
      }
      var score := Requests.FloatOf(item.fields["score"]).value;
      var saved := review.SaveScore(id.value, score);
      StoreScoresStep(snapshot, items, k, id.value, score);
      ScoresSavableStep(items, questionIds, k);
      k := k + 1;
    }
    assert items[..k] == items;
    return Pass;
  }
}
