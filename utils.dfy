/**
 * The shared validators of the questionnaire views: the structure of a posted responses
 * list, and the size and extension rule of an uploaded file.
 */
module Utils {
  import opened Wrappers
  import opened Json
  import Checks

  datatype UtilsError =
    | NotAList
    | NotAnObject
    | MissingQuestionId
    | MissingChoiceId
    | FileTooLarge
    | FileTypeNotAllowed

  /** The check of one element; a contextual response must also name its choice. */
  function ValidateResponse(response: Value, questionnaireType: string): (r: Outcome<UtilsError>)
  {
    if !response.Object? then Fail(NotAnObject)
    else if "question_id" !in response.fields then Fail(MissingQuestionId)
    else if questionnaireType == "contextual" && "choice_id" !in response.fields then Fail(MissingChoiceId)
    else Pass
  }

  /** The structure check of a responses value: a list whose elements all pass, in order. */
  function ValidateResponses(responses: Value, questionnaireType: string): (r: Outcome<UtilsError>)
    ensures !responses.List? ==> r == Fail(NotAList)
  {
    if !responses.List? then Fail(NotAList)
    else Checks.FirstFailure(responses.items, response => ValidateResponse(response, questionnaireType))
  }

  /**
   * A responses value is accepted exactly when it is a list of objects that all carry a
   * question id and, for the contextual questionnaire, a choice id; the empty list passes.
   */
  lemma ResponsesAcceptedIff(responses: Value, questionnaireType: string)
    ensures ValidateResponses(responses, questionnaireType).Pass?
            <==> responses.List? && forall i :: 0 <= i < |responses.items| ==>
                   responses.items[i].Object? && "question_id" in responses.items[i].fields
                   && (questionnaireType == "contextual" ==> "choice_id" in responses.items[i].fields)
    ensures ValidateResponses(List([]), questionnaireType).Pass?
  {
    if responses.List? {
      assert forall i :: 0 <= i < |responses.items| ==>
        (ValidateResponse(responses.items[i], questionnaireType).Pass? <==>
         responses.items[i].Object? && "question_id" in responses.items[i].fields
         && (questionnaireType == "contextual" ==> "choice_id" in responses.items[i].fields));
    }
  }

  /** One element that is not an object rejects the whole list, unless an earlier element failed first. */
  lemma NonObjectRejectsBatch(responses: seq<Value>, questionnaireType: string, k: nat)
    requires k < |responses| && !responses[k].Object?
    ensures ValidateResponses(List(responses), questionnaireType).Fail?
  {
    assert ValidateResponse(responses[k], questionnaireType).Fail?;
  }

  /** Only the contextual questionnaire requires a choice id. */
  lemma ChoiceIdOnlyForContextual(response: Value, questionnaireType: string)
    requires response.Object? && "question_id" in response.fields && "choice_id" !in response.fields
    ensures ValidateResponse(response, questionnaireType).Pass? <==> questionnaireType != "contextual"
  {
  }

  // ---------------------------------------------------------------------------------------
  // Uploaded files

  /** The text after the last occurrence of sep, or the whole string when sep does not occur. */
  function LastSegment(s: string, sep: char): (t: string)
    ensures sep !in t
    ensures |t| <= |s| && t == s[|s| - |t|..]
    ensures sep !in s ==> t == s
    ensures sep in s ==> |t| < |s| && s[|s| - |t| - 1] == sep
  {
    if |s| == 0 then ""
    else if s[|s| - 1] == sep then ""
    else LastSegment(s[..|s| - 1], sep) + [s[|s| - 1]]
  }

  /** Lower-casing of the ASCII letters; other characters are kept. */
  function Lower(s: string): (t: string)
    ensures |t| == |s|
    ensures forall i :: 0 <= i < |s| ==> t[i] == LowerChar(s[i])
  {
    if |s| == 0 then "" else Lower(s[..|s| - 1]) + [LowerChar(s[|s| - 1])]
  }

  function LowerChar(c: char): char
  {
    if 'A' <= c <= 'Z' then (c as int + 32) as char else c
  }

  /** The extension an upload is judged by: the lower-cased text after the last '.'. */
  function Extension(name: string): string
  {
    Lower(LastSegment(name, '.'))
  }

  /** The upload rule: the size is checked first, then the extension. */
  function ValidateFileUpload(size: int, name: string, maxSize: int, allowed: set<string>): (r: Outcome<UtilsError>)
    ensures r.Pass? <==> size <= maxSize && Extension(name) in allowed
    ensures size > maxSize ==> r == Fail(FileTooLarge)
    ensures size <= maxSize && Extension(name) !in allowed ==> r == Fail(FileTypeNotAllowed)
  {
    if size > maxSize then Fail(FileTooLarge)
    else if Extension(name) !in allowed then Fail(FileTypeNotAllowed)
    else Pass
  }

  /** A name without a dot is judged by the whole lower-cased name. */
  lemma ExtensionWithoutDot(name: string)
    requires '.' !in name
    ensures Extension(name) == Lower(name)
  {
  }

  /** A name with a dot splits as stem + "." + extension, the extension holding no dot. */
  lemma ExtensionAfterLastDot(name: string)
    requires '.' in name
    ensures exists stem :: name == stem + "." + LastSegment(name, '.') && '.' !in LastSegment(name, '.')
  {
    var t := LastSegment(name, '.');
    var stem := name[..|name| - |t| - 1];
    assert name == stem + "." + t;
  }

  /** Upper-case extensions are judged in lower case: "REPORT.PDF" has the extension "pdf". */
  lemma UpperCaseExtension()
    ensures Extension("REPORT.PDF") == "pdf"
  {
    var name := "REPORT.PDF";
    var t := LastSegment(name, '.');
    assert name[6] == '.';
    assert |t| == 3;
    assert t == "PDF";
    var e := Lower(t);
    assert e[0] == 'p' && e[1] == 'd' && e[2] == 'f';
  }
}
