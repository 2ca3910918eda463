/** Failure-compatible wrappers shared by every controller of the backend.

    Every request handler of the backend either answers normally or hands an
    `AppError` (a message plus an HTTP status code) to the Express error
    handler.  `Result<T>` is that choice; `Outcome` is its value-less form,
    used by checks that either pass or reject.
 */
module Wrappers {

  datatype Option<+T> = None | Some(value: T) {
    predicate IsFailure() { None? }

    function PropagateFailure<U>(): Option<U>
      requires None?
    {
      None
    }

    function Extract(): T
      requires Some?
    {
      value
    }

    function GetOr(default: T): T {
      match this
      case Some(v) => v
      case None => default
    }
  }

  /** The error shape of `AppError`: what the error handler turns into a JSON
      body `{status: 'error', message}` with HTTP status `status`. */
  datatype AppError = AppError(message: string, status: int)

  datatype Result<+T> = Ok(value: T) | Err(error: AppError) {
    predicate IsFailure() { Err? }

    function PropagateFailure<U>(): Result<U>
      requires Err?
    {
      Err(error)
    }

    function Extract(): T
      requires Ok?
    {
      value
    }
  }

  datatype Outcome = Pass | Fail(error: AppError) {
    predicate IsFailure() { Fail? }

    function PropagateFailure<U>(): Result<U>
      requires Fail?
    {
      Err(error)
    }
  }

  /** What the error handler sends for any error that is not an `AppError`. */
  const InternalError := AppError("An internal server error occurred", 500)

  /** The index of the first element satisfying `p`: the row a `SELECT ... WHERE`
      query returns as `rows[0]`. */
  function FirstIndex<T>(xs: seq<T>, p: T -> bool): (r: Option<nat>)
    ensures r.Some? ==> r.value < |xs| && p(xs[r.value])
    ensures r.Some? ==> forall j :: 0 <= j < r.value ==> !p(xs[j])
    ensures r.None? <==> forall j :: 0 <= j < |xs| ==> !p(xs[j])
  {
    if |xs| == 0 then None
    else if p(xs[0]) then Some(0)
    else
      match FirstIndex(xs[1..], p)
      case None => None
      case Some(k) => Some(k + 1)
  }

  /** Applies `f` to every element satisfying `p`: an `UPDATE ... WHERE`
      statement, which rewrites every matching row and no other. */
  function UpdateWhere<T>(xs: seq<T>, p: T -> bool, f: T -> T): (r: seq<T>)
    ensures |r| == |xs|
    ensures forall i :: 0 <= i < |xs| && p(xs[i]) ==> r[i] == f(xs[i])
    ensures forall i :: 0 <= i < |xs| && !p(xs[i]) ==> r[i] == xs[i]
  {
    seq(|xs|, i requires 0 <= i < |xs| => if p(xs[i]) then f(xs[i]) else xs[i])
  }

  /** The elements satisfying `p`, in their original order. */
  function Filter<T(!new)>(xs: seq<T>, p: T -> bool): (r: seq<T>)
    ensures |r| <= |xs|
    ensures forall i :: 0 <= i < |r| ==> r[i] in xs && p(r[i])
    ensures forall i :: 0 <= i < |xs| && p(xs[i]) ==> xs[i] in r
    // each kept element occurs as often as in `xs`, the others not at all
    ensures forall x :: multiset(r)[x] == if p(x) then multiset(xs)[x] else 0
  {
    if |xs| == 0 then []
    else
      assert xs == [xs[0]] + xs[1..];
      if p(xs[0]) then [xs[0]] + Filter(xs[1..], p)
      else Filter(xs[1..], p)
  }
}
