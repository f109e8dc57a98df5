/**
 * Three steps of the risk-calculation task exactly as the code has them, over the Python
 * values they handle. Each of them raises on every input that reaches it, and the rest of the
 * model uses the evidently intended definitions instead:
 *
 * - centroid defuzzification multiplies each level's label by its membership and sums the
 *   products starting from the integer 0;
 * - the combination step looks up per-factor entries in the initial score, which is a number;
 * - the record saves the per-factor manual dictionary in a numeric column.
 */
module AsWritten {
  import opened Wrappers
  import opened Models
  import opened Hierarchy
  import Fuzzy

  /** The Python values these steps produce: numbers, strings and number-valued dictionaries. */
  datatype PyValue =
    | PyInt(i: int)
    | PyFloat(f: real)
    | PyStr(s: string)
    | PyDict(entries: map<int, real>)

  datatype PyError = TypeError | AttributeError | ValueError | MultipleObjectsReturned

  predicate IsNumber(v: PyValue)
  {
    v.PyInt? || v.PyFloat?
  }

  function Num(v: PyValue): real
    requires IsNumber(v)
  {
    if v.PyInt? then v.i as real else v.f
  }

  /**
   * The trapezoidal membership as written: the integer 0 or 1 on its flat branches, a float on
   * its slopes.
   */
  function TrapezoidalAsWritten(x: real, a: real, b: real, c: real, d: real): (m: PyValue)
    ensures IsNumber(m) && Num(m) == Fuzzy.Trapezoidal(x, a, b, c, d)
    ensures a == b || c == d ==> m == PyInt(0)
  {
    if a == b || c == d then PyInt(0)
    else if x <= a || x >= d then PyInt(0)
    else if b <= x <= c then PyInt(1)
    else if a < x < b then PyFloat((x - a) / (b - a))
    else PyFloat((d - x) / (d - c))
  }

  function TriangularAsWritten(x: real, a: real, b: real, c: real): (m: PyValue)
    ensures IsNumber(m) && Num(m) == Fuzzy.Triangular(x, a, b, c)
    ensures a == b || b == c || x <= a || x >= c ==> m == PyInt(0)
  {
    if a == b || b == c then PyInt(0)
    else if x <= a || x >= c then PyInt(0)
    else if a < x <= b then PyFloat((x - a) / (b - a))
    else PyFloat((c - x) / (c - b))
  }

  /**
   * The fuzzy values of a manual score: each level's label with its membership, in the order
   * of the membership table. The very-low-risk trapezoid is degenerate, so its membership is
   * always the integer 0.
   */
  function FuzzyValuesAsWritten(x: real): (ps: seq<(string, PyValue)>)
    ensures |ps| == 5 && ps[0] == ("VLR", PyInt(0))
    ensures forall i :: 0 <= i < |ps| ==> IsNumber(ps[i].1)
    ensures Num(ps[0].1) == Fuzzy.Membership(Fuzzy.VLR, x) && Num(ps[1].1) == Fuzzy.Membership(Fuzzy.LR, x)
            && Num(ps[2].1) == Fuzzy.Membership(Fuzzy.MR, x) && Num(ps[3].1) == Fuzzy.Membership(Fuzzy.HR, x)
            && Num(ps[4].1) == Fuzzy.Membership(Fuzzy.VHR, x)
  {
    [("VLR", TrapezoidalAsWritten(x, 8.0, 9.0, 10.0, 10.0)),
     ("LR", TriangularAsWritten(x, 6.0, 7.5, 9.0)),
     ("MR", TriangularAsWritten(x, 3.0, 5.0, 7.0)),
     ("HR", TriangularAsWritten(x, 1.0, 2.5, 4.0)),
     ("VHR", TrapezoidalAsWritten(x, 0.0, 0.0, 1.0, 2.0))]
  }

  /** A string repeated n times; empty for n <= 0. */
  function Repeat(s: string, n: int): (r: string)
    ensures |r| == if n <= 0 then 0 else n * |s|
    decreases n
  {
    if n <= 0 then "" else s + Repeat(s, n - 1)
  }

  /** A level label times a membership: repetition by an integer, and TypeError by a float. */
  function Times(name: string, m: PyValue): (r: Result<PyValue, PyError>)
    ensures m.PyInt? <==> r.Ok?
    ensures m.PyInt? && m.i <= 0 ==> r == Ok(PyStr(""))
  {
    match m
    case PyInt(n) => Ok(PyStr(Repeat(name, n)))
    case _ => Err(TypeError)
  }

  /** Python's + on these values: numbers add, strings concatenate, and a mix raises. */
  function Plus(a: PyValue, b: PyValue): (r: Result<PyValue, PyError>)
    ensures IsNumber(a) && IsNumber(b) ==> r.Ok? && IsNumber(r.value) && Num(r.value) == Num(a) + Num(b)
    ensures IsNumber(a) && b.PyStr? ==> r == Err(TypeError)
    ensures a.PyStr? && b.PyStr? ==> r == Ok(PyStr(a.s + b.s))
  {
    if a.PyInt? && b.PyInt? then Ok(PyInt(a.i + b.i))
    else if IsNumber(a) && IsNumber(b) then Ok(PyFloat(Num(a) + Num(b)))
    else if a.PyStr? && b.PyStr? then Ok(PyStr(a.s + b.s))
    else Err(TypeError)
  }

  /** sum() of label * membership over the pairs, from the accumulator acc, left to right. */
  function SumOfProducts(acc: PyValue, ps: seq<(string, PyValue)>): Result<PyValue, PyError>
    decreases |ps|
  {
    if |ps| == 0 then Ok(acc)
    else
      match Times(ps[0].0, ps[0].1)
      case Err(e) => Err(e)
      case Ok(term) =>
        match Plus(acc, term)
        case Err(e) => Err(e)
        case Ok(next) => SumOfProducts(next, ps[1..])
  }

  /** sum() of the memberships, which are all numbers. */
  function MembershipTotal(ps: seq<(string, PyValue)>): real
    requires forall i :: 0 <= i < |ps| ==> IsNumber(ps[i].1)
  {
    if |ps| == 0 then 0.0 else Num(ps[0].1) + MembershipTotal(ps[1..])
  }

  /** The defuzzification as written: numerator over denominator, or 0 when the denominator is 0. */
  function DefuzzifyAsWritten(x: real): Result<PyValue, PyError>
  {
    var ps := FuzzyValuesAsWritten(x);
    match SumOfProducts(PyInt(0), ps)
    case Err(e) => Err(e)
    case Ok(numerator) =>
      var denominator := MembershipTotal(ps);
      if denominator == 0.0 then Ok(PyInt(0))
      else if IsNumber(numerator) then Ok(PyFloat(Num(numerator) / denominator))
      else Err(TypeError)
  }

  /**
   * Defuzzification as written raises TypeError for every manual score: the first product is
   * 'VLR' * 0, the empty string, and sum() cannot add it to its starting integer 0.
   */
  lemma DefuzzifyRaises(x: real)
    ensures DefuzzifyAsWritten(x) == Err(TypeError)
  {
    var ps := FuzzyValuesAsWritten(x);
    assert Times(ps[0].0, ps[0].1) == Ok(PyStr(""));
    assert Plus(PyInt(0), PyStr("")) == Err(TypeError);
  }

  /**
   * The manual scorer's lookups over the questions of a sub factor, as written: a question some
   * review scores twice raises MultipleObjectsReturned, a question scored once is defuzzified,
   * and one nobody scores is skipped.
   */
  function ManualLookupsAsWritten(reviews: seq<map<int, real>>, questions: seq<Question>): Outcome<PyError>
  {
    if |questions| == 0 then Pass
    else
      var scores := ScoresFor(reviews, questions[0].id);
      if |scores| > 1 then Fail(MultipleObjectsReturned)
      else if |scores| == 1 && DefuzzifyAsWritten(scores[0]).Err? then Fail(DefuzzifyAsWritten(scores[0]).error)
      else ManualLookupsAsWritten(reviews, questions[1..])
  }

  /**
   * As written, the manual scorer gets through a sub factor only when no review scores any of
   * its questions: a single score raises in the defuzzification, a double one in the lookup.
   */
  lemma {:induction false} ManualLookupsPassOnlyUnscored(reviews: seq<map<int, real>>, questions: seq<Question>)
    ensures ManualLookupsAsWritten(reviews, questions).Pass? <==>
              forall k {:trigger ScoresFor(reviews, questions[k].id)} :: 0 <= k < |questions| ==> |ScoresFor(reviews, questions[k].id)| == 0
  {
    if |questions| > 0 {
      var rest := questions[1..];
      ManualLookupsPassOnlyUnscored(reviews, rest);
      FirstManualLookup(reviews, questions);
      if ManualLookupsAsWritten(reviews, questions).Pass? {
        forall k | 0 <= k < |questions|
          ensures |ScoresFor(reviews, questions[k].id)| == 0
        {
          if k > 0 {
            assert questions[k] == rest[k - 1];
          }
        }
      } else if |ScoresFor(reviews, questions[0].id)| == 0 {
        var j :| 0 <= j < |rest| && |ScoresFor(reviews, rest[j].id)| != 0;
        assert questions[j + 1] == rest[j];
        assert |ScoresFor(reviews, questions[j + 1].id)| != 0;
      }
    }
  }

  /** The first lookup gets through only when no review scores the first question. */
  lemma FirstManualLookup(reviews: seq<map<int, real>>, questions: seq<Question>)
    requires |questions| > 0
    ensures ManualLookupsAsWritten(reviews, questions).Pass? <==>
              |ScoresFor(reviews, questions[0].id)| == 0 && ManualLookupsAsWritten(reviews, questions[1..]).Pass?
  {
    var scores := ScoresFor(reviews, questions[0].id);
    if |scores| == 1 {
      DefuzzifyRaises(scores[0]);
    }
  }

  /** d.get(key, 0): a dictionary lookup, and AttributeError on anything but a dictionary. */
  function GetAsWritten(d: PyValue, key: int): (r: Result<real, PyError>)
    ensures d.PyDict? <==> r.Ok?
    ensures d.PyDict? ==> r.value == Get(d.entries, key)
  {
    match d
    case PyDict(entries) => Ok(if key in entries then entries[key] else 0.0)
    case _ => Err(AttributeError)
  }

  /** The combination step as written, over the main factors in order. */
  function CombineAsWritten(factors: seq<MainRiskFactor>, initialScores: PyValue, manualScores: PyValue)
    : Result<real, PyError>
  {
    if |factors| == 0 then Ok(0.0)
    else
      match CombineAsWritten(factors[..|factors| - 1], initialScores, manualScores)
      case Err(e) => Err(e)
      case Ok(total) =>
        var id := factors[|factors| - 1].id;
        match GetAsWritten(initialScores, id)
        case Err(e) => Err(e)
        case Ok(initial) =>
          match GetAsWritten(manualScores, id)
          case Err(e) => Err(e)
          case Ok(manual) => Ok(total + (initial + manual))
  }

  /**
   * The initial step returns a number, so the combination step raises AttributeError as soon
   * as there is a main factor to look up.
   */
  lemma {:induction false} CombineRaises(factors: seq<MainRiskFactor>, initialScores: PyValue, manualScores: PyValue)
    requires |factors| > 0 && IsNumber(initialScores)
    ensures CombineAsWritten(factors, initialScores, manualScores) == Err(AttributeError)
  {
    if |factors| > 1 {
      CombineRaises(factors[..|factors| - 1], initialScores, manualScores);
    }
  }

  /**
   * Handed two dictionaries, as evidently intended, the combination is the lookup sum the
   * model's combination step computes.
   */
  lemma {:induction false} CombineOfDictionaries(factors: seq<MainRiskFactor>, initialScores: map<int, real>,
                                                 manualScores: map<int, real>)
    ensures CombineAsWritten(factors, PyDict(initialScores), PyDict(manualScores))
            == Ok(LookupSum(factors, initialScores) + LookupSum(factors, manualScores))
  {
    if |factors| > 0 {
      CombineOfDictionaries(factors[..|factors| - 1], initialScores, manualScores);
    }
  }

  /**
   * The conversion a float column applies on save: numbers convert, a dictionary raises
   * TypeError. The only strings here are repeated level labels, which float() rejects.
   */
  function FloatColumn(v: PyValue): (r: Result<real, PyError>)
    ensures IsNumber(v) <==> r.Ok?
    ensures IsNumber(v) ==> r.value == Num(v)
  {
    match v
    case PyInt(n) => Ok(n as real)
    case PyFloat(f) => Ok(f)
    case PyStr(_) => Err(ValueError)
    case PyDict(_) => Err(TypeError)
  }

  /** The fuzzy-score column receives the manual dictionary, which no save accepts. */
  lemma FuzzyScoreColumnRaises(manualScores: map<int, real>)
    ensures FloatColumn(PyDict(manualScores)) == Err(TypeError)
  {
  }

  /**
   * From the combination to the stored fuzzy score, as written: the initial total and the
   * manual dictionary are combined, then the dictionary is saved in the fuzzy-score column.
   */
  function StoredFuzzyScoreAsWritten(factors: seq<MainRiskFactor>, initialTotal: PyValue,
                                     manualScores: map<int, real>): Result<real, PyError>
  {
    match CombineAsWritten(factors, initialTotal, PyDict(manualScores))
    case Err(e) => Err(e)
    case Ok(_) => FloatColumn(PyDict(manualScores))
  }

  /**
   * As written, the task never stores a record: with a main factor the combination raises,
   * and without one the save of the fuzzy score does.
   */
  lemma NothingIsStored(factors: seq<MainRiskFactor>, initialTotal: PyValue, manualScores: map<int, real>)
    requires IsNumber(initialTotal)
    ensures StoredFuzzyScoreAsWritten(factors, initialTotal, manualScores).Err?
  {
    if |factors| > 0 {
      CombineRaises(factors, initialTotal, PyDict(manualScores));
    }
  }
}
