/** Failure-compatible carriers shared by every module of the model. */
module Wrappers {

  /** A value that may be absent: JavaScript's `undefined` / `null`. */
  datatype Option<+T> = None | Some(value: T) {

    predicate IsFailure() {
      None?
    }

    function PropagateFailure<U>(): Option<U>
      requires None?
    {
      None
    }

    function Extract(): T
      requires Some?
    {
      value
    }

    /** `x ?? default` */
    function GetOr(default: T): T {
      match this
      case Some(v) => v
      case None => default
    }
  }

  /** The result of an operation that either yields a value or throws. */
  datatype Result<+R, +E> = Success(value: R) | Failure(error: E) {

    predicate IsFailure() {
      Failure?
    }

    function PropagateFailure<U>(): Result<U, E>
      requires Failure?
    {
      Failure(error)
    }

    function Extract(): R
      requires Success?
    {
      value
    }
  }

  /** The result of a check that either passes or throws. */
  datatype Outcome<+E> = Pass | Fail(error: E) {

    predicate IsFailure() {
      Fail?
    }

    function PropagateFailure(): Outcome<E>
      requires Fail?
    {
      this
    }
  }

  /** The values `f` recognises in `xs`, in order: a `reduce` that pushes only recognised items. */
  function Recognised<T, U>(xs: seq<T>, f: T -> Option<U>): (r: seq<U>)
    ensures |r| <= |xs|
  {
    if |xs| == 0 then []
    else
      var rest := Recognised(xs[1..], f);
      match f(xs[0])
      case Some(y) => [y] + rest
      case None => rest
  }

  /** A value is kept exactly when some item is recognised as it. */
  lemma {:induction false} RecognisedMembers<T, U>(xs: seq<T>, f: T -> Option<U>, y: U)
    ensures y in Recognised(xs, f) <==> exists i :: 0 <= i < |xs| && f(xs[i]) == Some(y)
  {
    if |xs| > 0 {
      var tail := xs[1..];
      RecognisedMembers(tail, f, y);
      if exists i :: 1 <= i < |xs| && f(xs[i]) == Some(y) {
        var i :| 1 <= i < |xs| && f(xs[i]) == Some(y);
        assert tail[i - 1] == xs[i];
      }
      if exists j :: 0 <= j < |tail| && f(tail[j]) == Some(y) {
        var j :| 0 <= j < |tail| && f(tail[j]) == Some(y);
        assert xs[j + 1] == tail[j];
      }
    }
  }
}
