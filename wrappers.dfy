/** Failure-carrying values used in place of the exceptions the system raises. */
module Wrappers {

  datatype Option<+T> = None | Some(value: T)

  /** The outcome of a check that either passes or fails with an error value. */
  datatype Outcome<+E> = Pass | Fail(error: E)

  /** A computed value, or the error that aborted the computation. */
  datatype Result<+T, +E> = Ok(value: T) | Err(error: E)
}

/** The shapes of decoded JSON request bodies that the validators inspect. */
module Json {

  datatype Value =
    | Null
    | Bool(b: bool)
    | Number(n: real)
    | Str(s: string)
    | List(items: seq<Value>)
    | Object(fields: map<string, Value>)
}

/**
 * A validation loop that inspects the elements of a list in order and raises on the first one
 * that fails a check.
 */
module Checks {
  import opened Wrappers

  function FirstFailure<T, E>(xs: seq<T>, check: T -> Outcome<E>): (r: Outcome<E>)
    ensures r.Pass? <==> forall i :: 0 <= i < |xs| ==> check(xs[i]).Pass?
  {
    if |xs| == 0 then Pass
    else if check(xs[0]).Fail? then check(xs[0])
    else FirstFailure(xs[1..], check)
  }

  /** A failure is the failure of an element all of whose predecessors pass. */
  lemma {:induction false} FirstFailureIsFirst<T, E>(xs: seq<T>, check: T -> Outcome<E>)
    requires FirstFailure(xs, check).Fail?
    ensures exists i :: 0 <= i < |xs| && check(xs[i]) == FirstFailure(xs, check)
                        && forall j :: 0 <= j < i ==> check(xs[j]).Pass?
  {
    if check(xs[0]).Pass? {
      FirstFailureIsFirst(xs[1..], check);
      var i :| 0 <= i < |xs[1..]| && check(xs[1..][i]) == FirstFailure(xs[1..], check)
               && forall j :: 0 <= j < i ==> check(xs[1..][j]).Pass?;
      assert check(xs[i + 1]) == FirstFailure(xs, check);
      forall j | 0 <= j < i + 1
        ensures check(xs[j]).Pass?
      {
        if j > 0 {
          assert xs[j] == xs[1..][j - 1];
        }
      }
    }
  }
}
