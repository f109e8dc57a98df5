# Vendor risk assessment: the scoring and workflow core

The platform has vendors fill in three questionnaires in a fixed order. The first is a
corporate questionnaire. The second is a contextual questionnaire: each question carries a
weight and each choice a risk modifier. The third is a risk-assessment questionnaire made of
Yes/No, multiple-choice, short-answer and file-upload questions, grouped into sub factors
and main risk factors with weights. A risk-assessment team then scores the short answers and
documents by hand (0 to 10), and a background task computes the risk score:

- the **initial score**: the Yes/No and multiple-choice answers. Each question gets an equal
  share of its sub factor, then the sub-factor and main-factor weights apply;
- the **manual score**: each manual score goes through five fuzzy membership functions
  (very low to very high risk) and is defuzzified by its centroid, then weighted the same way;
- the combined score, raised or lowered by the **contextual modifier** (the weight-averaged
  modifier of the vendor's one submitted contextual questionnaire);
- a simulation step, after which one calculation record per questionnaire is created or
  replaced and the questionnaire is completed.

This project models that core in Dafny:

- the status lifecycle of each questionnaire kind and the guards the views apply;
- the order in which the three questionnaires may be taken;
- request validation;
- the save and submit actions of the three questionnaire views, and the scoring action of
  the team view;
- the progress computation of the stored questionnaires;
- the manual-score and document checks, and the manager filters;
- the risk engine.

Scores, weights and modifiers are `real`: exact rational arithmetic in place of floating point.

Module layout:

| file | module | models |
|---|---|---|
| wrappers.dfy | Wrappers, Json, Checks | Option/Outcome/Result; JSON request values; first-failure validation of a list |
| models.dfy | Models | entities, status choices, progress, `clean` checks, manager filters |
| workflow.dfy | Workflow | the status-transition table, the view guards, the questionnaire order, completion |
| requests.dfy | Requests | validation of risk-assessment requests and of score batches |
| utils.dfy | Utils | the response-list and file-upload validators |
| means.dfy | Means | weighted sums and weighted means, with bounds |
| fuzzy.dfy | Fuzzy | membership functions, fuzzification, centroid defuzzification |
| hierarchy.dfy | Hierarchy | the taxonomy-weighted score as a specification function, and its laws |
| scoring.dfy | Scoring | the initial-score, manual-score and combination loops |
| contextual.dfy | Contextual | the task's contextual modifier, the view's risk modifier, the adjustment |
| records.dfy | Records | the stored questionnaires, reviews and calculation records, updated in place |
| views.dfy | Views | the save and submit actions and the scoring action, with their transactions |
| pipeline.dfy | Pipeline | the risk-calculation task |
| witnesses.dfy | Witnesses | concrete instances from the seed data |
| aswritten.dfy | AsWritten | the three task steps that raise as written, over Python values |

Errors are results, not exceptions. Each view action returns the error response it would
send, and its contract states which rows are left as they were.

- **An exception that leaves an atomic view rolls the whole request back.** This covers a
  missing corporate question and the corporate save's division by zero. It also covers a
  missing question or a null comment in the scoring action, and scores that cannot be
  iterated, as in a request that leaves the view through `get_object_or_404`.
- **An exception the view catches itself commits what was written before it.** The
  contextual and risk-assessment posts catch every exception and answer 500, so those rows stay.

The model follows the code, with three exceptions. In each of them the code as written
raises on every input that reaches it, and its own docstrings and column types show what was
meant. The model uses the intended definition there. Module `AsWritten` models the code as
written, and "## Findings" lists the three:

- **The combination step.** `calculate_risk_async` hands `combine_scores` the initial total,
  not a map (core/tasks.py:145, 227, 236). The model hands it the map of per-factor
  contributions that `calculate_initial_score` builds, which is what `combine_scores` indexes.
- **The stored fuzzy score.** The task stores the per-factor manual map in the numeric
  `fuzzy_score` column (core/tasks.py:251). The model stores the manual total there.
- **Defuzzification.** `defuzzify` multiplies each level's label by its membership
  (core/tasks.py:98). The model gives each level a representative point (`Fuzzy.LevelPoints`)
  and takes the centroid over those points. When no level fires it keeps the source's result, 0.

Elsewhere the model keeps what the code does, including these behaviours:

- **Several reviews can score one question.** Each team member keeps their own review of a
  submission (core/views.py:753-757), and nothing makes a question's manual score unique
  across reviews. The task looks a question's score up across all reviews of the
  questionnaire and catches only the missing case (core/tasks.py:69-86). Two scores make the
  lookup raise, and the task fails and rolls back (`Pipeline.CalculationError.AmbiguousManualScore`).
- **Ids go through `int()`.** A lookup by primary key converts its value with Python's
  `int()`. `true` names row 1 and `5.5` names row 5, and `" 12 "` names row 12. Null matches
  no row. A value that does not convert raises, and the view answers 500 (`Requests.IntOf`,
  `Requests.KeyOf`).
- **Exceptions, not validation errors.** Some malformed input makes a view raise rather than
  answer 400, and the model answers `Unexpected` (500) for it:
  - a `responses` value that is not a list of objects;
  - a corporate answer without response text, which the non-nullable text column refuses;
  - a score that `float()` cannot convert.
- **The initial score is not normalised.** It is the sum of the weighted factor scores, not
  divided by the weight total. Within a sub factor, the questions share its weight equally
  and their seeded weights are ignored.
- **The view's modifier.** The contextual view divides each weighted modifier by 100
  (core/views.py:282). The model computes it over the responses of this request, duplicates
  included, so it is one hundredth of the task's modifier for the same responses
  (`Contextual.ViewModifierIsHundredth`).
- **The risk-assessment post's progress.** Its division is unguarded, but it cannot divide by
  zero, because a request that passes validation names at least one existing question.

## Model

| member | source | states |
|---|---|---|
| Models.StatusChoices | core/models.py:54-62 | The corporate and contextual questionnaires can only be In Progress or Submitted. Under Review and Completed belong to the risk-assessment questionnaire alone (core/models.py:197-210). |
| Models.Progress | core/models.py:64-69 | With no questions, progress is 0. Otherwise progress times the number of questions equals 100 times the answered count. It lies in [0, 100], and is exactly 100 iff every question of a non-empty set is answered. |
| Models.CleanManualScore | core/models.py:273-279 | A manual score is accepted iff it lies in [0, 10], and is rejected as out of range otherwise. |
| Models.CleanDocument | core/models.py:246-248 | A document is accepted iff its size is at most 5 MiB (5 242 880 bytes). |
| Models.WithStatus | core/models.py:187-195 | The filter keeps exactly the rows with the given status, each as many times as the table holds it, and drops every other row. |
| Models.GetPendingReviews | core/models.py:188-189 | Exactly the Submitted rows. |
| Models.GetInProgress | core/models.py:191-192 | Exactly the In Progress rows. |
| Models.GetCompleted | core/models.py:194-195 | Exactly the Completed rows. |
| Models.FiltersPartitionRows | core/models.py:187-210 | The three manager filters and the Under Review rows together count every row exactly once. |
| Workflow.Successors | core/views.py:957-971 | Every status has at most one successor. A status outside the kind's choices has none. |
| Workflow.ValidateTransition | core/views.py:974-983 | A transition passes iff the target is the successor the table lists for the current status. Otherwise it fails with the pair of statuses. |
| Workflow.TransitionIsOneStepForward | core/views.py:957-983 | A valid transition moves exactly one step along In Progress, Submitted, Under Review, Completed, within the kind's choices. |
| Workflow.EndStates | core/views.py:959-970 | Submitted is final for the corporate and contextual kinds, and Completed is final for all kinds. |
| Workflow.NoSelfOrBackwardTransition | core/views.py:957-983 | No transition stays in place or goes back. |
| Workflow.HistoryFollowsChain | core/views.py:957-983 | Every history of valid transitions from In Progress visits the statuses in order. It has at most 4 entries, and at most 2 for the kinds whose end state is Submitted. |
| Workflow.CanModify | core/views.py:480-484 | A risk-assessment questionnaire accepts answers iff the table allows it to move to Submitted, that is, iff it is In Progress. |
| Workflow.CanReview | core/views.py:746-750 | The team may score a submission iff it is Submitted or Under Review. |
| Workflow.CanCalculate | core/tasks.py:221-223 | The risk task runs iff the table allows the move to Completed, that is, iff the questionnaire is Under Review. |
| Workflow.AlreadySubmitted | core/views.py:173-177 | The corporate and contextual views refuse a questionnaire exactly when the table leaves it nowhere to go from its (valid) status. |
| Workflow.GuardsNest | core/views.py:480-484 | A questionnaire the task may calculate may also be reviewed. Neither a reviewable nor a calculable one accepts answers. |
| Workflow.ValidateCorporateStatus | core/views.py:921-924 | The corporate questionnaire has no prerequisite. |
| Workflow.ValidateContextualStatus | core/views.py:926-935 | The contextual questionnaire opens iff some corporate questionnaire of the vendor is Submitted. |
| Workflow.ValidateRiskAssessmentStatus | core/views.py:937-954 | The risk assessment opens iff both a corporate and a contextual questionnaire are Submitted. The corporate check comes first and decides the error. |
| Workflow.RiskAccessImpliesContextualAccess | core/views.py:926-954 | Whoever may open the risk assessment may also open the contextual questionnaire. |
| Workflow.ValidateCompletion | core/views.py:262-266 | Complete iff the answered count is not below the question count. |
| Workflow.CompleteIffFullProgress | core/views.py:262-272 | With no more answers than questions, completion means every question is answered. With at least one question, it means progress is exactly 100. With none, the questionnaire is complete at progress 0. |
| Requests.IntOf | core/views.py:420-426 | Python's `int()` of a request value: a boolean gives 0 or 1, a number is truncated toward zero, a string parses, and null, lists and objects do not convert. |
| Requests.ParseRendered | core/views.py:420-426 | `int()` reads back every integer as Python writes it, with any surrounding whitespace. |
| Requests.IdCoercions | core/views.py:420-439 | `true` is 1, `false` is 0, 5.5 is 5 and -2.5 is -2; null looks up no row, and a list raises. |
| Requests.StringIdCoercions | core/views.py:420-439 | " 12 " is 12 and "-7" is -7: surrounding whitespace and a sign are accepted. |
| Requests.UnconvertedStringIds | core/views.py:420-439 | "abc", "" and "+" do not convert. |
| Requests.ChoiceIds | core/views.py:436-439 | Exactly the ids of the question's choices. |
| Requests.EmptyResponsesRejected | core/views.py:413-417 | A request without responses, or with an empty list, fails as "responses are required". |
| Requests.RequestAcceptedIff | core/views.py:413-442 | A request passes iff it has a non-empty list of responses, each naming an existing question by an id that converts and answering it as that question's type demands. A rejected non-empty list is rejected with the error of one of its own items. |
| Requests.AnswerRules | core/views.py:428-442 | Yes/No needs a boolean answer. Multiple choice needs a truthy choice id that converts to the id of one of the question's choices. A short answer needs non-blank text. A file upload needs nothing more. |
| Requests.FloatOf | core/views.py:771 | `float()` converts exactly the numbers, the booleans and the strings `int()` accepts, and agrees with `int()` on booleans and those strings. A converted number or boolean is non-zero iff it is truthy. |
| Requests.ValidateScoreItem | core/views.py:764-775 | A score item passes iff it is an object with a question id and a score that converts to a float in [0, 10]. The format error comes exactly when a container lacks one of the keys: an object, a list, or a string as a substring test. |
| Requests.ValidateScoreBatch | core/views.py:763-776 | A batch passes iff every item passes. |
| Requests.ScoreBatchRejectsFirstOffender | core/views.py:763-776 | A rejected batch is rejected with the error of one of its own items. |
| Checks.FirstFailure | core/views.py:763-776 | A list passes iff every element passes the check. |
| Checks.FirstFailureIsFirst | core/views.py:763-776 | A failing list reports the failure of the first failing element; every element before it passes. |
| Utils.ValidateResponses | core/utils.py:9-22 | Anything but a list is rejected as "not a list". |
| Utils.ResponsesAcceptedIff | core/utils.py:9-22 | A list passes iff every element is an object with a question id, and, for the contextual questionnaire, a choice id. The empty list passes. |
| Utils.NonObjectRejectsBatch | core/utils.py:14-16 | One non-object element rejects the whole list. |
| Utils.ChoiceIdOnlyForContextual | core/utils.py:21-22 | An object with a question id but no choice id passes iff the questionnaire is not the contextual one. |
| Utils.LastSegment | core/utils.py:31 | The last segment holds no separator and is a suffix of the name. It is the whole name when there is no separator, and otherwise begins right after the last one. |
| Utils.Lower | core/utils.py:31 | Lower-casing keeps the length and maps each character. |
| Utils.ValidateFileUpload | core/utils.py:25-32 | An upload passes iff its size is within the maximum and its lower-cased extension is allowed. The size check comes first. |
| Utils.ExtensionWithoutDot | core/utils.py:31 | A name without a dot is its own extension, lower-cased. |
| Utils.ExtensionAfterLastDot | core/utils.py:31 | The extension is what follows the last dot. |
| Utils.UpperCaseExtension | core/utils.py:31 | "REPORT.PDF" has the extension "pdf", so upper-case uploads of allowed types pass. |
| Means.WeightedSumBounds | core/tasks.py:96-100 | With non-negative weights and values in [lo, hi], the weighted sum lies between lo and hi times the weight total. |
| Means.MeanBetween | core/tasks.py:96-100 | A weighted mean with a non-zero total lies among its values. |
| Means.ZeroWeightsZeroTotal | core/tasks.py:99-100 | All-zero weights give a zero total. |
| Fuzzy.Triangular | core/tasks.py:39-46 | A degenerate triangle gives 0, and so does anything outside (a, c). On a proper triangle the membership lies in [0, 1], is positive exactly strictly inside (a, c), and is 1 at the peak. |
| Fuzzy.Trapezoidal | core/tasks.py:28-37 | A degenerate trapezoid gives 0, and so does anything outside (a, d). On a proper trapezoid the membership lies in [0, 1], is positive exactly strictly inside (a, d), and is 1 on the plateau [b, c]. |
| Fuzzy.Membership | core/tasks.py:18-26 | Each of the five fixed membership functions lies in [0, 1]. |
| Fuzzy.ShoulderLevelsNeverFire | core/tasks.py:21-25 | The very-low and very-high trapezoids have a = b or c = d with the fixed parameters, so they are 0 for every score. |
| Fuzzy.FuzzyValues | core/tasks.py:74-78 | Fuzzification gives five (point, membership) pairs with non-negative memberships whose points lie wherever the level points lie. |
| Fuzzy.Defuzzify | core/tasks.py:96-100 | With a zero membership total the result is 0. Otherwise the result times the total equals the membership-weighted sum. |
| Fuzzy.DefuzzifyBetween | core/tasks.py:96-100 | A defuzzified value with a non-zero total lies among the points. |
| Fuzzy.MembershipSupport | core/tasks.py:20-26 | Some level fires iff the manual score lies strictly between 1 and 9. |
| Fuzzy.CrispOutsideSupport | core/tasks.py:96-100 | A manual score of at most 1 or at least 9 defuzzifies to 0. |
| Fuzzy.CrispBetweenPoints | core/tasks.py:74-82 | Inside (1, 9) the crisp score lies among the level points. Outside it is 0. |
| Fuzzy.CrispInRange | core/tasks.py:74-82 | With level points in [0, 10], every crisp score lies in [0, 10]. |
| Fuzzy.CrispAtLowRiskPeak | core/tasks.py:22 | A manual score of 7.5, the low-risk peak, defuzzifies to 7.5 with centroid points. |
| Hierarchy.OfTypesMembers | core/tasks.py:110-113 | The type filter keeps exactly the questions of the requested types. |
| Hierarchy.CountIsLength | core/tasks.py:118 | The question count is the number of questions. |
| Hierarchy.ShareOfLength | core/tasks.py:118 | Each question's share is 1 over the number of questions. |
| Hierarchy.Share | core/tasks.py:118 | A share is positive and the shares of n questions add up to 1. |
| Hierarchy.SubFactorScoreIsMean | core/tasks.py:115-139 | A sub factor's score is the plain mean of its question scores. It is 0 when it has no question of the scorer's types. |
| Hierarchy.SubFactorScoreBounds | core/tasks.py:115-139 | With question scores in [0, 10], a sub factor scores within [0, 10]. |
| Hierarchy.MainFactorScoreBounds | core/tasks.py:109-142 | With non-negative sub-factor weights, a main factor scores within 10 times its weight total. |
| Hierarchy.ContributionBounds | core/tasks.py:142 | A well-weighted main factor contributes at most 10 times its weight. |
| Hierarchy.TotalBounds | core/tasks.py:106-145 | The total lies within 10 times the main-factor weight total. |
| Hierarchy.TotalWithinScale | core/tasks.py:106-145 | With weights summing to 1 at both levels, the total lies in [0, 10]. |
| Hierarchy.ObjectiveScoresWithin | core/tasks.py:128-131 | With choice scores in [0, 10], every Yes/No and multiple-choice question scores in [0, 10]. |
| Hierarchy.SubjectiveScoresWithin | core/tasks.py:74-82 | With level points in [0, 10], every manually scored question scores in [0, 10]. |
| Hierarchy.PointSumAgree | core/tasks.py:121-137 | Two scorers that agree on every question give the same point sum. |
| Hierarchy.PointSumChangeAt | core/tasks.py:121-137 | Changing one question's score changes the point sum by exactly that difference. |
| Hierarchy.OfTypesDistinct | core/tasks.py:110-113 | Filtering keeps question ids distinct. |
| Hierarchy.ChangeIsOneShare | core/tasks.py:118-137 | Changing one question's score moves its sub factor's score by that change times one share. |
| Hierarchy.AnsweringAddsOneShare | core/tasks.py:121-137 | Answering a previously unanswered Yes/No or multiple-choice question raises its sub factor's score by the new score times one share. |
| Hierarchy.ScoringAddsOneShare | core/tasks.py:67-86 | Scoring a previously unscored short answer or document raises its sub factor's score by the crisp score times one share. |
| Hierarchy.CrispScoresUpdate | core/tasks.py:67-82 | Re-scoring one question changes only that question's crisp score. |
| Hierarchy.ScoresForCount | core/tasks.py:69-84 | The lookup of a question's manual score finds nothing iff no review scores it, several scores iff two reviews do, and otherwise the score of the one review that does. |
| Hierarchy.OneReviewScores | core/tasks.py:69-84 | With a single review the lookup finds that review's scores, unchanged. |
| Hierarchy.SingleScoresAt | core/tasks.py:69-84 | The single scores hold exactly the questions the lookup finds once, each with the score it finds. |
| Hierarchy.ManualQuestionScore | core/tasks.py:67-86 | The manual scorer gives a question the crisp score of its one score, and 0 when the lookup finds none or several. |
| Hierarchy.PointSumZero | core/tasks.py:134-137 | Questions that all score 0 sum to 0. |
| Hierarchy.MainFactorScoreZero | core/tasks.py:109-142 | A main factor whose questions all score 0 scores 0. |
| Hierarchy.SilentFactorContributesZero | core/tasks.py:115-116 | A main factor with no question of the scorer's types contributes 0. |
| Hierarchy.UnscoredFactorContributesZero | core/tasks.py:84-86 | A main factor with no answered or scored question contributes 0. |
| Hierarchy.ContributionMapKeys | core/tasks.py:142 | The per-factor map has exactly the main-factor ids as keys. |
| Hierarchy.ContributionMapAt | core/tasks.py:142 | With distinct ids, each main factor's entry is its contribution. |
| Hierarchy.LookupSumIgnoresOtherKeys | core/tasks.py:201-208 | Summing lookups over factors ignores keys that are not their ids. |
| Hierarchy.LookupSumOfContributionMap | core/tasks.py:201-208 | Looking each factor up in the per-factor map and summing gives the total. |
| Scoring.CalculateInitialScore | core/tasks.py:102-145 | The loop's result is the taxonomy-weighted total of the Yes/No and multiple-choice scores. |
| Scoring.InitialFactorScores | core/tasks.py:104-143 | The loop builds the per-factor map of initial contributions. |
| Scoring.InitialMainFactorScore | core/tasks.py:107-140 | One main factor's loop gives its weighted sum of sub-factor scores. |
| Scoring.InitialSubFactorScore | core/tasks.py:110-137 | A sub factor without Yes/No or multiple-choice questions is skipped, and its score is 0. Otherwise the result is the mean of its question scores; an unanswered question scores 0. |
| Scoring.InitialQuestionsScore | core/tasks.py:121-137 | The question loop sums each question's score times its share. |
| Scoring.ProcessManualScores | core/tasks.py:48-94 | The loop fails iff two reviews score some short-answer or upload question of the taxonomy, naming such a question. Otherwise it builds the per-factor map of manual contributions from the defuzzified single scores. |
| Scoring.ManualMainFactorScore | core/tasks.py:55-89 | One main factor's loop fails iff two reviews score a question of one of its sub factors. Otherwise it gives its weighted sum of manual sub-factor scores. |
| Scoring.ManualSubFactorScore | core/tasks.py:56-86 | The sub factor fails iff two reviews score one of its questions. A sub factor without short-answer or upload questions is skipped, and its score is 0. Otherwise the result is the mean of the crisp scores; an unscored question scores 0. |
| Scoring.ManualQuestionsScore | core/tasks.py:67-86 | The question loop fails at the first question two reviews score, and only then. Otherwise it sums each crisp score times its share, where a question no review scores counts 0. |
| Scoring.CombineScores | core/tasks.py:197-210 | The combination is the sum of both maps' lookups over the main factors, where a missing factor counts 0. |
| Scoring.LookupSumOfEmpty | core/tasks.py:203-204 | Lookups in an empty map sum to 0. |
| Scoring.CombineOfContributionMaps | core/tasks.py:197-210 | Combining the two per-factor maps gives the initial total plus the manual total. |
| Contextual.Pairs | core/tasks.py:158-165 | Each response becomes its (modifier, weight) pair, in order. |
| Contextual.ModifierMean | core/tasks.py:155-170 | The mean fails as invalid weights iff the weights sum to 0. Otherwise it times the weight total equals the weighted modifier sum. |
| Contextual.ContextualModifier | core/tasks.py:147-175 | With no submitted contextual questionnaire the task fails as not completed, and with several as a failed calculation. With one, the result is its weighted mean. |
| Contextual.CalculateContextualModifier | core/tasks.py:147-175 | The loop computes that modifier, errors included. |
| Contextual.ModifierBetween | core/tasks.py:158-170 | With non-negative weights, the modifier lies among the choices' modifiers. |
| Contextual.PositiveWeightsAreValid | core/tasks.py:167-168 | With positive question weights, the weights fail to sum to more than 0 only when there are no responses. |
| Contextual.RiskModifier | core/views.py:274-289 | The view's modifier fails as invalid weights iff the weights sum to 0. Otherwise it times the weight total equals the sum of weighted modifiers over 100. |
| Contextual.CalculateRiskModifier | core/views.py:274-289 | The view's loop computes that modifier, errors included. |
| Contextual.ScaledSumIsHundredth | core/views.py:282-283 | The sum of weighted modifiers each divided by 100 is the weighted sum divided by 100. |
| Contextual.ViewModifierIsHundredth | core/views.py:274-289 | The view's modifier fails exactly when the task's would, and is one hundredth of it. |
| Contextual.AdjustedScore | core/tasks.py:241 | A modifier of 0 leaves the score as it is. A non-negative score stays non-negative under any modifier of at least -1. |
| Contextual.AdjustedScoreBetween | core/tasks.py:241 | The adjustment is monotone in the modifier. A positive modifier raises a positive score, and a negative one lowers it. |
| Records.CorporateQuestionnaire.constructor | core/models.py:54-62 | A new corporate questionnaire is In Progress, at progress 0, with no answers. |
| Records.CorporateQuestionnaire.CalculateProgress | core/models.py:64-69 | Stores and returns the answered share of the corporate questions in percent, changing nothing else. |
| Records.ContextualQuestionnaire.constructor | core/models.py:101-108 | A new contextual questionnaire is In Progress, at progress 0, with no selections and no modifier. |
| Records.ContextualQuestionnaire.CalculateProgress | core/models.py:110-115 | Stores and returns the answered share of the contextual questions in percent, changing nothing else. |
| Records.RiskAssessmentQuestionnaire.constructor | core/models.py:197-210 | A new risk-assessment questionnaire is In Progress, at progress 0, with no responses. |
| Records.RiskAssessmentQuestionnaire.CalculateProgress | core/models.py:212-217 | Stores and returns the answered share of the risk-assessment questions in percent, changing nothing else. |
| Records.Review.constructor | core/models.py:250-260 | A new review holds no scores. |
| Records.Review.SaveScore | core/models.py:264-279 | A save runs the range check first. A score in [0, 10] is created or replaced for its question; any other score is refused and nothing changes. Every stored score stays within [0, 10]. |
| Records.CalculationStore.constructor | core/models.py:281-290 | The calculation table starts empty. |
| Records.CalculationStore.UpdateOrCreate | core/tasks.py:248-258 | The questionnaire's record is created or replaced, and no other record changes. |
| Records.RecalculationReplaces | core/models.py:282 | After any number of recalculations a questionnaire has exactly one record, the last one, and the other questionnaires' records are untouched. |
| Views.SubsetOfSameSize | core/views.py:234-243 | A set of answered questions, contained in the questions and as large as them, is all of them. |
| Views.PostedItems | core/views.py:180-181 | Absent responses are the empty list. A non-empty result is the posted list itself. |
| Views.CorporateItemCheck | core/views.py:181-192 | An item passes iff it names an existing corporate question by an id that converts, and carries a response text that is not null. A failure is a 404 or a 500. |
| Views.StoreCorporateAnswers | core/views.py:180-192 | The loop passes iff every item passes its check. Otherwise it stops with the error of the first failing item. On success it adds exactly the named questions to the answers, all of them corporate questions. |
| Views.CorporateSave | core/views.py:163-203 | A submitted questionnaire is refused. Responses that cannot be iterated give 500, and otherwise the first failing item decides the error. The save succeeds iff none of these happens and some question exists. On success it adds the named answers and stores their progress. Every failure leaves the answers and the progress as they were. |
| Views.CorporateSubmit | core/views.py:205-256 | A submitted questionnaire, responses that cannot be iterated, or a failing item is refused with its error, changing nothing. After storing the answers, an incomplete questionnaire is refused and keeps them. A successful submit leaves every question answered, progress 100 and status Submitted. |
| Views.SelectKeys | core/views.py:341-358 | After the answers, the selected questions are the earlier ones plus every answered question. |
| Views.Saved | core/views.py:341-358 | One saved response per answer, in order, with its question's weight and its choice's modifier. |
| Views.StoreContextualAnswers | core/views.py:341-358 | The loop succeeds iff every answer names a known question and choice, and then holds these selections. Otherwise it stops at the first unknown one, keeping the selections made before it. |
| Views.FinishContextualPost | core/views.py:360-396 | Stores the progress. A submit is refused as incomplete iff questions remain unanswered, and as invalid weights iff the saved responses' weights sum to 0. A submit that passes stores the view's modifier and marks the questionnaire Submitted. |
| Views.ContextualPost | core/views.py:318-407 | Refuses a submitted questionnaire, then an empty request, changing nothing. An unknown question or choice answers 500 and keeps the selections made. Otherwise the answers are stored and the progress, completion check, modifier and status follow as in FinishContextualPost. |
| Views.ChoiceWithId | core/views.py:504-508 | The choice found has the requested id. When none is found, no choice has it. |
| Views.StoreAnswersKeys | core/views.py:489-515 | Storing answers keeps every earlier response, adds only known questions, and adds every question a valid item names. |
| Views.StoreRiskAssessmentAnswers | core/views.py:489-515 | The loop stores each item's answer in the column its question type uses. |
| Views.UnguardedProgress | core/views.py:517-520 | The post's own progress division agrees with the progress function whenever some question exists. |
| Views.RiskAssessmentPost | core/views.py:473-556 | A questionnaire that is not In Progress is refused, then an invalid request. A request whose check raises gives 500. None of these changes anything. Otherwise the answers are stored with their progress. A submit is refused as incomplete unless every question is answered, and otherwise marks the questionnaire Submitted. |
| Views.StoredScoresWithin | core/views.py:763-786 | Saving a batch that passed validation keeps every stored score within [0, 10]. |
| Views.ValidatedScoreItem | core/views.py:764-775 | A validated score item is an object whose score converts into [0, 10]. Its save writes that score for its question when the id converts. |
| Views.CommentOk | core/models.py:271 | An item fails its save iff it is an object whose comment is present and null, since the comment column is NOT NULL. |
| Views.ScoresSavableStep | core/views.py:778-786 | One more item with an existing question and no null comment extends a batch prefix every save of which succeeds. |
| Views.CharacterScoresRejected | core/views.py:764-769 | A non-empty string posted as the scores iterates one-character strings, and the batch is rejected for its format (400). |
| Views.ScoreIterationOf | core/views.py:761-764 | Absent scores are the empty list. A list iterates its items and a non-empty object its keys. Null, a boolean or a number cannot be iterated. A non-empty string's items are rejected for their format. |
| Views.SubmitScores | core/views.py:739-791 | A submission that is not Submitted or Under Review is refused. Scores that cannot be iterated give 500. A non-empty object is rejected for some key of it, with 400, or with 500 when the key holds both key names. A list or string is ScoreBatch's. The action succeeds iff the iterated batch validates and every item saves, and then stores every item's score. Every failure changes nothing. |
| Views.ScoreBatch | core/views.py:761-791 | A batch with a bad item is refused with that item's error, with 500 when the check itself raises. A valid batch with an item that cannot be saved gives 500. The action succeeds iff neither happens, and then stores every item's score for its question. Every failure changes nothing. |
| Views.SaveScoreBatch | core/views.py:777-786 | Every score of a validated batch is saved in turn. The first item whose question does not exist, or whose comment is null, rolls the batch back with a 500. |
| Pipeline.CombinedScore | core/tasks.py:224-236 | Steps 1 to 3 fail iff two reviews score a taxonomy question. Otherwise they give the initial total plus the manual total over the single scores, and the manual total beside it. |
| Pipeline.Calculate | core/tasks.py:224-245 | The calculation fails first on a question two reviews score, then on a failing contextual modifier, with that error, and it succeeds iff neither happens. It yields the combined score, the manual total, the adjusted score and the simulation's triple. |
| Pipeline.CalculateRiskAsync | core/tasks.py:212-275 | A questionnaire not Under Review is refused, then a question two reviews score, then a failing modifier, and every failure changes nothing. On success the questionnaire's record is created or replaced over the reviews' single scores, no other record changes, and the questionnaire is Completed. |
| Pipeline.CalculationBounds | core/tasks.py:224-245 | With scores and points in [0, 10] and a well-weighted taxonomy, the stored combined score lies in [0, 20] and the manual total in [0, 10]. A modifier in [-1, 1] keeps the adjusted score within [0, 40], and a modifier of 0 leaves it equal to the combined score. |
| AsWritten.TrapezoidalAsWritten | core/tasks.py:28-37 | The membership as written has the value of the model's trapezoid. A degenerate trapezoid gives the integer 0. |
| AsWritten.TriangularAsWritten | core/tasks.py:39-46 | The membership as written has the value of the model's triangle. It is the integer 0 outside the triangle. |
| AsWritten.FuzzyValuesAsWritten | core/tasks.py:18-26 | Five (label, membership) pairs with the model's memberships. The first is the very-low-risk label with the integer 0. |
| AsWritten.Times | core/tasks.py:98 | A label times an integer is a string, the empty one for 0. A label times a float raises. |
| AsWritten.Plus | core/tasks.py:98 | Numbers add, strings concatenate, and a number plus a string raises TypeError. |
| AsWritten.DefuzzifyRaises | core/tasks.py:96-100 | As written, defuzzification raises TypeError for every manual score. |
| AsWritten.ManualLookupsPassOnlyUnscored | core/tasks.py:67-86 | As written, the manual loop gets through a sub factor iff no review scores any of its questions. |
| AsWritten.FirstManualLookup | core/tasks.py:67-86 | As written, the first lookup gets through iff no review scores the first question. |
| AsWritten.GetAsWritten | core/tasks.py:203-204 | `get` on a dictionary is the lookup with default 0, and on anything else raises AttributeError. |
| AsWritten.CombineRaises | core/tasks.py:197-236 | Given the number the initial step returns, the combination raises AttributeError whenever there is a main factor. |
| AsWritten.CombineOfDictionaries | core/tasks.py:197-210 | Given two dictionaries, the combination is the sum of both lookups over the main factors. |
| AsWritten.FloatColumn | core/models.py:284 | A float column accepts exactly the numbers, with their value. |
| AsWritten.FuzzyScoreColumnRaises | core/tasks.py:248-258 | Saving the manual dictionary in the fuzzy-score column raises TypeError. |
| AsWritten.NothingIsStored | core/tasks.py:224-258 | As written, the task never saves a record. With a main factor the combination raises, and without one the save of the fuzzy score does. |
| Witnesses.SampleSelection | core/management/commands/seed_data.py:86-150 | Six responses, one per seeded contextual question. |
| Witnesses.SampleModifier | core/management/commands/seed_data.py:86-150 | The seeded question weights sum to 100. The sample's modifier is 0.0575 for the task and 0.000575 for the view, and it raises a combined score of 6 to 6.345. |
| Witnesses.SeedTaxonomy | core/management/commands/seed_data.py:159-440 | The five seeded main factors. |
| Witnesses.SeedTaxonomyWellWeighted | core/management/commands/seed_data.py:159-440 | The seeded main-factor weights sum to 1, and so does each factor's sub-factor weights, so every total over the seeded taxonomy lies in [0, 10]. |
| Witnesses.MissingAnswerKeepsItsShare | core/tasks.py:118-137 | An unanswered question keeps its share of the sub factor, so one Yes out of two questions scores 5 and contributes 5 × 0.40 × 0.35 = 0.7. |

## Left out

- The Monte Carlo simulation (`perform_monte_carlo`): it draws random numbers. The task takes the simulation as a function parameter.
- Persistence, Celery scheduling, logging, notifications, audit logs and signals: the model holds each stored table as a field of a class.
- HTTP, authentication, permissions, serializers, URL routing and the GET handlers: the views are modelled from the request data they read to the error they return.
- The order of the three questionnaires is modelled on lists of the vendor's questionnaire statuses, not on queries.
- `BaseQuestionnaireView.validate_sequence` and `RiskAssessmentQuestionnaireView.validate_prerequisites`: they repeat the order checks modelled in `Workflow`.
- `DocumentUploadView.validate_file` repeats the upload check modelled by `Utils.ValidateFileUpload`.
- The document upload view otherwise writes a file, and the file is not part of this model.
- The team view's `complete` action calls `calculate_risk`, which core/views.py imports but no module defines. Importing core/views.py therefore fails. The risk task is modelled from `calculate_risk_async` instead.
- The `get_or_create` of the review in the scoring action: the review is a parameter.
- Comments, response text contents and the corporate answers' text are not stored. Only which questions are answered is.
- Request values are JSON values, and the posted data is a JSON object.
- Requests.IntOf: underscores in digit strings and non-ASCII digits and spaces are not modelled; such a string does not convert.
- Requests.FloatOf: `float()` of a decimal, exponent or special string ("7.5", "1e1", "nan") is not modelled; such a string is taken as not a number, so its item answers 500.
- Views.SaveScoreBatch: a question id that converts but matches no row, one that does not convert, and a null comment all end in the same 500 and rollback. The model does not tell the exceptions apart.
- Views.SubmitScores: an object posted as the scores iterates its keys in insertion order, which the model's objects do not keep. The contract therefore names some key of the object, not the first.
- Views.ContextualPost: takes the posted ids after `int()` conversion. An id that does not convert ends like an unknown one, in a 500 that keeps the earlier selections.
- `MultipleObjectsReturned` from `get` in the contextual modifier is modelled as a failed calculation, without its message.
- Whitespace stripping covers the ASCII white space: space, tab, line feed, carriage return, vertical tab, form feed and the separators 0x1C to 0x1F. Non-ASCII white space is not modelled, and neither is Unicode case: lower-casing covers ASCII only.
- Floating-point rounding: scores and weights are exact reals.
- Witnesses.SeedTaxonomy: the seeded questions are left empty; only the weights of the factors are instances.
- Fuzzy.Defuzzify: the source multiplies each risk-level label by its membership, which is not a number. The model uses a representative point per level instead (see "## Findings").
- Pipeline.CalculateRiskAsync: stores the manual total as the fuzzy score, where the source stores the per-factor manual map in a numeric column (see "## Findings").
- Scoring.CombineScores: is given the per-factor map of initial contributions, where the source passes the initial total, which has no per-factor lookups (see "## Findings").

## Findings

| source | as written | input that shows it | evidently intended | confidence | as-written member | corrected member |
|---|---|---|---|---|---|---|
| core/tasks.py:96-100 | the numerator multiplies each level's label, a string, by its membership and sums the products from 0 | any manual score: the first product is `'VLR' * 0`, the empty string, and `0 + ''` raises TypeError | a centroid over a numeric point per level, between the lowest and highest point | not executed | AsWritten.DefuzzifyRaises | Fuzzy.DefuzzifyBetween |
| core/tasks.py:145, 197-210, 236 | `combine_scores` calls `.get` on what `calculate_initial_score` returns, the float total | any taxonomy with a main factor: `float.get` raises AttributeError | the per-factor contributions are looked up and summed, giving the initial total plus the manual total | not executed | AsWritten.CombineRaises | Scoring.CombineOfContributionMaps |
| core/tasks.py:248-258 | the per-factor manual dictionary is saved in the float column `fuzzy_score` | any taxonomy without a main factor, where the combination succeeds: `float(dict)` raises TypeError | the manual total is stored, a number in [0, 10] | not executed | AsWritten.NothingIsStored | Pipeline.CalculationBounds |
