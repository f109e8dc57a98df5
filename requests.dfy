/**
 * The checks the risk-assessment views run on decoded request bodies before anything is
 * stored: the answers posted by a vendor, and the manual scores posted by a reviewer.
 */
module Requests {
  import opened Wrappers
  import opened Json
  import opened Models
  import Checks

  /** Python truthiness of a decoded JSON value. */
  predicate Truthy(v: Value)
  {
    match v
    case Null => false
    case Bool(b) => b
    case Number(n) => n != 0.0
    case Str(s) => |s| > 0
    case List(items) => |items| > 0
    case Object(fields) => |fields| > 0
  }

  /** The value under a key, or a default when the key is absent. */
  function GetOr(fields: map<string, Value>, key: string, default: Value): (v: Value)
    ensures key in fields ==> v == fields[key]
    ensures key !in fields ==> v == default
  {
    if key in fields then fields[key] else default
  }

  /**
   * The characters Python's str.strip removes that this model knows of: the ASCII ones, that is
   * space, tab, line feed, carriage return, vertical tab, form feed and the four separators.
   */
  predicate IsSpace(c: char)
  {
    c == ' ' || c == '\t' || c == '\n' || c == '\r' || c == '\U{B}' || c == '\U{C}'
    || c == '\U{1C}' || c == '\U{1D}' || c == '\U{1E}' || c == '\U{1F}'
  }

  /** A string that strips to the empty string. */
  predicate Blank(s: string)
  {
    forall i :: 0 <= i < |s| ==> IsSpace(s[i])
  }

  predicate IsDigit(c: char)
  {
    '0' <= c <= '9'
  }

  predicate AllDigits(d: string)
  {
    forall i :: 0 <= i < |d| ==> IsDigit(d[i])
  }

  /** The value of a string of decimal digits, most significant first. */
  function DigitsValue(d: string): nat
    requires AllDigits(d)
  {
    if |d| == 0 then 0 else DigitsValue(d[..|d| - 1]) * 10 + (d[|d| - 1] as int - '0' as int)
  }

  function TrimStart(s: string): (t: string)
    ensures |t| <= |s|
  {
    if |s| > 0 && IsSpace(s[0]) then TrimStart(s[1..]) else s
  }

  function TrimEnd(s: string): (t: string)
    ensures |t| <= |s|
  {
    if |s| > 0 && IsSpace(s[|s| - 1]) then TrimEnd(s[..|s| - 1]) else s
  }

  /** Python's str.strip() without arguments. */
  function Strip(s: string): string
  {
    TrimEnd(TrimStart(s))
  }

  /**
   * Python's int() of a string: optional surrounding whitespace, an optional sign and at least
   * one decimal digit; anything else raises ValueError (None here).
   */
  function ParseInt(s: string): Option<int>
  {
    var t := Strip(s);
    var negative := |t| > 0 && t[0] == '-';
    var digits := if |t| > 0 && (t[0] == '-' || t[0] == '+') then t[1..] else t;
    if |digits| > 0 && AllDigits(digits) then
      Some(if negative then -(DigitsValue(digits) as int) else DigitsValue(digits))
    else None
  }

  /**
   * Python's int() of a decoded JSON value, as the integer primary-key field applies it to a
   * lookup value: a boolean is 0 or 1, a number is truncated toward zero, a string is parsed,
   * and null, lists and objects raise TypeError (None here).
   */
  function IntOf(v: Value): (r: Option<int>)
    ensures v.Bool? ==> r == Some(if v.b then 1 else 0)
    ensures v.Number? ==> r.Some? && -1.0 < v.n - r.value as real < 1.0
                          && (0.0 <= v.n ==> 0.0 <= r.value as real <= v.n)
                          && (v.n < 0.0 ==> v.n <= r.value as real <= 0.0)
    ensures v.Str? ==> r == ParseInt(v.s)
    ensures v.Null? || v.List? || v.Object? ==> r.None?
  {
    match v
    case Bool(b) => Some(if b then 1 else 0)
    case Number(n) => Some(if 0.0 <= n then n.Floor else -((-n).Floor))
    case Str(s) => ParseInt(s)
    case _ => None
  }

  /** How a primary-key lookup treats the value it is given. */
  datatype Key =
    | NoKey            // None: the lookup matches no row
    | KeyId(id: int)   // the row with this id, if any
    | Unconvertible    // int() raises: the request fails with a server error

  function KeyOf(v: Value): (k: Key)
    ensures k.NoKey? <==> v.Null?
    ensures k.KeyId? ==> IntOf(v) == Some(k.id)
    ensures k.Unconvertible? <==> !v.Null? && IntOf(v).None?
  {
    if v.Null? then NoKey
    else if IntOf(v).Some? then KeyId(IntOf(v).value)
    else Unconvertible
  }

  /** The decimal digits of a natural number. */
  function Decimal(n: nat): (d: string)
    ensures |d| > 0 && AllDigits(d)
  {
    if n < 10 then [('0' as int + n) as char] else Decimal(n / 10) + [('0' as int + n % 10) as char]
  }

  /** An integer as Python's str() writes it. */
  function Rendered(n: int): string
  {
    if n < 0 then "-" + Decimal(-n) else Decimal(n)
  }

  lemma {:induction false} DecimalValue(n: nat)
    ensures DigitsValue(Decimal(n)) == n
  {
    if n >= 10 {
      DecimalValue(n / 10);
      var d := Decimal(n);
      assert d[..|d| - 1] == Decimal(n / 10);
    }
  }

  lemma {:induction false} TrimStartOfSpaces(pad: string, x: string)
    requires Blank(pad) && (|x| == 0 || !IsSpace(x[0]))
    ensures TrimStart(pad + x) == x
  {
    if |pad| > 0 {
      assert (pad + x)[1..] == pad[1..] + x;
      TrimStartOfSpaces(pad[1..], x);
    }
  }

  lemma {:induction false} TrimEndOfSpaces(x: string, pad: string)
    requires Blank(pad) && (|x| == 0 || !IsSpace(x[|x| - 1]))
    ensures TrimEnd(x + pad) == x
  {
    if |pad| > 0 {
      assert (x + pad)[..|x + pad| - 1] == x + pad[..|pad| - 1];
      TrimEndOfSpaces(x, pad[..|pad| - 1]);
    } else {
      assert x + pad == x;
    }
  }

  /**
   * int() reads back every integer Python writes, whatever whitespace surrounds it: a string id
   * designates the row whose id it spells.
   */
  lemma ParseRendered(n: int, before: string, after: string)
    requires Blank(before) && Blank(after)
    ensures IntOf(Str(before + Rendered(n) + after)) == Some(n)
  {
    var x := Rendered(n);
    var d := if n < 0 then Decimal(-n) else Decimal(n);
    DecimalValue(if n < 0 then -n else n);
    assert x[|x| - 1] == d[|d| - 1];
    TrimEndOfSpaces(x, after);
    assert before + x + after == before + (x + after);
    TrimStartOfSpaces(before, x + after);
    assert Strip(before + x + after) == x;
    if n < 0 {
      assert x[1..] == d;
    }
  }

  /** The coercions of the lookup, one value of each kind. */
  lemma IdCoercions()
    ensures IntOf(Bool(true)) == Some(1) && IntOf(Bool(false)) == Some(0)
    ensures IntOf(Number(5.5)) == Some(5) && IntOf(Number(-2.5)) == Some(-2)
    ensures KeyOf(Null) == NoKey && KeyOf(List([])) == Unconvertible
  {
  }

  /** Strings as ids: surrounding whitespace and a sign are allowed. */
  lemma StringIdCoercions()
    ensures IntOf(Str(" 12 ")) == Some(12) && IntOf(Str("-7")) == Some(-7)
  {
    ParseRendered(12, " ", " ");
    assert " " + Rendered(12) + " " == " 12 ";
    ParseRendered(-7, "", "");
    assert "" + Rendered(-7) + "" == "-7";
  }

  /** Strings without digits do not convert, a lone sign included. */
  lemma UnconvertedStringIds()
    ensures IntOf(Str("abc")).None? && IntOf(Str("")).None? && IntOf(Str("+")).None?
  {
    assert Strip("abc") == "abc";
    assert Strip("+") == "+";
  }

  // ---------------------------------------------------------------------------------------
  // The vendor's answers

  datatype RequestError =
    | ResponsesRequired
    | QuestionIdRequired
    | InvalidQuestionId
    | BooleanRequired(question: int)
    | ChoiceIdRequired(question: int)
    | InvalidChoiceId(question: int)
    | TextRequired(question: int)
    | Malformed           // responses not a list of objects: iterating or reading an item raises
    | UnconvertibleId     // an id int() cannot convert: the lookup raises

  /** The rejections that are exceptions in the source rather than validation errors. */
  predicate Raises(e: RequestError)
  {
    e.Malformed? || e.UnconvertibleId?
  }

  /** The ids of a question's choices. */
  function ChoiceIds(q: Question): (ids: set<int>)
    ensures forall c :: c in q.choices ==> c.id in ids
    ensures forall id :: id in ids ==> exists c :: c in q.choices && c.id == id
  {
    set c | c in q.choices :: c.id
  }

  /** The type-dependent check of one answer to a known question. */
  function ValidateAnswer(q: Question, fields: map<string, Value>): (r: Outcome<RequestError>)
  {
    var answer := GetOr(fields, "answer", Object(map[]));
    match q.qtype
    case YesNo =>
      if answer.Bool? then Pass else Fail(BooleanRequired(q.id))
    case MultipleChoice =>
      var choice := GetOr(fields, "choice_id", Null);
      if !Truthy(choice) then Fail(ChoiceIdRequired(q.id))
      else
        (match KeyOf(choice)
         case KeyId(id) => if id in ChoiceIds(q) then Pass else Fail(InvalidChoiceId(q.id))
         case _ => Fail(UnconvertibleId))
    case ShortAnswer =>
      if answer.Str? && !Blank(answer.s) then Pass else Fail(TextRequired(q.id))
    case FileUpload =>
      Pass
  }

  /** The check of one element of the responses list, against the questions by id. */
  function ValidateItem(questions: map<int, Question>, item: Value): (r: Outcome<RequestError>)
  {
    if !item.Object? then Fail(Malformed)
    else
      var qid := GetOr(item.fields, "question_id", Null);
      if !Truthy(qid) then Fail(QuestionIdRequired)
      else match KeyOf(qid)
        case KeyId(id) => if id in questions then ValidateAnswer(questions[id], item.fields) else Fail(InvalidQuestionId)
        case _ => Fail(UnconvertibleId)
  }

  /**
   * The validation of an answers request: the responses list must be present and non-empty,
   * and the first element that fails its check decides the error.
   */
  function ValidateRequestData(questions: map<int, Question>, data: map<string, Value>): (r: Outcome<RequestError>)
  {
    var responses := GetOr(data, "responses", List([]));
    if !Truthy(responses) then Fail(ResponsesRequired)
    else if !responses.List? then Fail(Malformed)
    else Checks.FirstFailure(responses.items, item => ValidateItem(questions, item))
  }

  /** A missing or empty responses list is rejected, whatever the questions. */
  lemma EmptyResponsesRejected(questions: map<int, Question>, data: map<string, Value>)
    requires "responses" !in data || data["responses"] == List([])
    ensures ValidateRequestData(questions, data) == Fail(ResponsesRequired)
  {
  }

  /**
   * A request is accepted exactly when its responses form a non-empty list every element of
   * which is accepted; a rejection is the rejection of an element whose predecessors pass.
   */
  lemma RequestAcceptedIff(questions: map<int, Question>, data: map<string, Value>)
    ensures ValidateRequestData(questions, data).Pass?
            <==> "responses" in data && data["responses"].List? && |data["responses"].items| > 0
                 && forall i :: 0 <= i < |data["responses"].items| ==>
                      ValidateItem(questions, data["responses"].items[i]).Pass?
    ensures ValidateRequestData(questions, data).Fail? && "responses" in data && data["responses"].List?
            && |data["responses"].items| > 0 ==>
              exists i :: 0 <= i < |data["responses"].items|
                && ValidateItem(questions, data["responses"].items[i]) == ValidateRequestData(questions, data)
  {
    var r := ValidateRequestData(questions, data);
    if r.Fail? && "responses" in data && data["responses"].List? && |data["responses"].items| > 0 {
      Checks.FirstFailureIsFirst(data["responses"].items, item => ValidateItem(questions, item));
    }
  }

  /**
   * What each question type demands of an answer to a known question: a boolean for Yes/No,
   * a truthy choice id among the question's own choices for Multiple Choice, a non-blank
   * string for Short Answer, and nothing for File Upload.
   */
  lemma AnswerRules(q: Question, fields: map<string, Value>)
    ensures q.qtype == YesNo ==>
      (ValidateAnswer(q, fields).Pass? <==> "answer" in fields && fields["answer"].Bool?)
    ensures q.qtype == MultipleChoice ==>
      (ValidateAnswer(q, fields).Pass? <==>
         "choice_id" in fields && Truthy(fields["choice_id"])
         && exists c :: c in q.choices && IntOf(fields["choice_id"]) == Some(c.id))
    ensures q.qtype == ShortAnswer ==>
      (ValidateAnswer(q, fields).Pass? <==> "answer" in fields && fields["answer"].Str? && !Blank(fields["answer"].s))
    ensures q.qtype == FileUpload ==> ValidateAnswer(q, fields).Pass?
  {
    if q.qtype == MultipleChoice && "choice_id" in fields {
      var v := fields["choice_id"];
      if ValidateAnswer(q, fields).Pass? {
        var c :| c in q.choices && c.id == KeyOf(v).id;
        assert IntOf(v) == Some(c.id);
      }
    }
  }

  // ---------------------------------------------------------------------------------------
  // The reviewer's manual scores

  datatype ScoreError =
    | InvalidScoreFormat
    | ScoreNotInRange
    | ScoreNotANumber   // float() raises
    | MalformedItem     // the key test or the subscript raises on an item that is not an object

  /** The rejections that are exceptions in the source rather than error responses. */
  predicate ScoreRaises(e: ScoreError)
  {
    e.ScoreNotANumber? || e.MalformedItem?
  }

  /**
   * Python's float() of a decoded JSON value: numbers convert, booleans and the strings int()
   * accepts convert as int() does, and anything else raises (None here).
   */
  function FloatOf(v: Value): (x: Option<real>)
    ensures x.Some? <==> v.Number? || v.Bool? || (v.Str? && IntOf(v).Some?)
    ensures v.Number? ==> x == Some(v.n)
    ensures (v.Bool? || v.Str?) && x.Some? ==> x == Some(IntOf(v).value as real)
    ensures v.Number? || v.Bool? ==> (x.value != 0.0 <==> Truthy(v))
  {
    match v
    case Number(n) => Some(n)
    case Bool(b) => Some(if b then 1.0 else 0.0)
    case Str(s) => if ParseInt(s).Some? then Some(ParseInt(s).value as real) else None
    case _ => None
  }

  /** The string occurs in s. */
  predicate Occurs(key: string, s: string)
    decreases |s|
  {
    |key| <= |s| && (s[..|key|] == key || Occurs(key, s[1..]))
  }

  /**
   * Python's `key in container` for a decoded value: a key of an object, an element of a list,
   * a substring of a string; None when the value is not a container and the test raises.
   */
  function Contains(container: Value, key: string): (r: Option<bool>)
    ensures r.None? <==> !(container.Object? || container.List? || container.Str?)
    ensures container.Object? ==> r == Some(key in container.fields)
  {
    match container
    case Object(fields) => Some(key in fields)
    case List(items) => Some(Str(key) in items)
    case Str(s) => Some(Occurs(key, s))
    case _ => None
  }

  /**
   * The check of one score item: both keys present, then a convertible score within [0, 10].
   * A list or a string can pass the key test, and only an object can then be subscripted.
   */
  function ValidateScoreItem(item: Value): (r: Outcome<ScoreError>)
    ensures r.Pass? <==> item.Object? && "question_id" in item.fields && "score" in item.fields
                         && FloatOf(item.fields["score"]).Some?
                         && CleanManualScore(FloatOf(item.fields["score"]).value).Pass?
    ensures r == Fail(InvalidScoreFormat) <==>
              (item.Object? || item.List? || item.Str?)
              && !(Contains(item, "question_id") == Some(true) && Contains(item, "score") == Some(true))
  {
    var hasId := Contains(item, "question_id");
    var hasScore := Contains(item, "score");
    if hasId.None? || hasScore.None? then Fail(MalformedItem)
    else if !(hasId.value && hasScore.value) then Fail(InvalidScoreFormat)
    else if !item.Object? then Fail(MalformedItem)
    else if FloatOf(item.fields["score"]).None? then Fail(ScoreNotANumber)
    else if !(0.0 <= FloatOf(item.fields["score"]).value <= 10.0) then Fail(ScoreNotInRange)
    else Pass
  }

  /** The validation loop that runs over the whole batch before any score is saved. */
  function ValidateScoreBatch(items: seq<Value>): (r: Outcome<ScoreError>)
    ensures r.Pass? <==> forall i :: 0 <= i < |items| ==> ValidateScoreItem(items[i]).Pass?
  {
    Checks.FirstFailure(items, ValidateScoreItem)
  }

  /** A rejected batch is rejected for its first offending item. */
  lemma ScoreBatchRejectsFirstOffender(items: seq<Value>)
    requires ValidateScoreBatch(items).Fail?
    ensures exists i :: 0 <= i < |items| && ValidateScoreItem(items[i]) == ValidateScoreBatch(items)
                        && forall j :: 0 <= j < i ==> ValidateScoreItem(items[j]).Pass?
  {
    Checks.FirstFailureIsFirst(items, ValidateScoreItem);
  }
}
