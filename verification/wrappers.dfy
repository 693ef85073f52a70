/** Failure-compatible result type shared by the client builders (whose
    failures are assertion messages) and the on-chain model (whose failures
    are error kinds). */
module Wrappers {

  datatype Option<+T> = None | Some(value: T)

  datatype Result<+T, +E> = Ok(value: T) | Err(error: E) {

    predicate IsFailure() {
      Err?
    }

    function PropagateFailure<U>(): Result<U, E>
      requires Err?
    {
      Err(error)
    }

    function Extract(): T
      requires Ok?
    {
      value
    }
  }

  /** Succeeds exactly when `condition` holds, failing with `error` otherwise. */
  function Need<E>(condition: bool, error: E): (r: Result<(), E>)
    ensures r.Ok? <==> condition
  {
    if condition then Ok(()) else Err(error)
  }
}
