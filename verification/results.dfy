/**
 * Absent values and raised exceptions, as values: `Option` stands for a
 * Python value that may be `None`, `Result` for a step that may raise.
 */
module Results {

  /** An optional value: Python's `None` versus a present value. */
  datatype Option<+T> = None | Some(value: T) {

    /** The wrapped value, or `default` when there is none (Python's `dict.get(k, default)`). */
    function GetOr(default: T): T {
      match this
      case Some(v) => v
      case None => default
    }
  }

  /** The outcome of a computation that may raise: a value or the error it raised. */
  datatype Result<+R, +E> = Success(value: R) | Failure(error: E) {

    predicate IsFailure() {
      Failure?
    }

    function PropagateFailure<U>(): Result<U, E>
      requires Failure?
    {
      Failure(error)
    }

    function Extract(): R
      requires Success?
    {
      value
    }
  }

  /**
   * Runs a sequence of steps that may raise, in order: the values of all of
   * them, or an error one of them raised.
   */
  function Collect<R, E>(steps: seq<Result<R, E>>): (r: Result<seq<R>, E>)
    ensures r.Success? <==> forall i :: 0 <= i < |steps| ==> steps[i].Success?
    ensures r.Success? ==> |r.value| == |steps| && forall i :: 0 <= i < |steps| ==> r.value[i] == steps[i].value
  {
    if |steps| == 0 then Success([])
    else
      var head :- steps[0];
      var rest := Collect(steps[1..]);
      assert forall i :: 1 <= i < |steps| ==> steps[i] == steps[1..][i - 1];
      if rest.Failure? then Failure(rest.error)
      else Success([head] + rest.value)
  }
}
