/** Optional values and results carrying an error, used wherever the program returns `Option` or `Result`. */
module Wrappers {
  datatype Option<+T> = None | Some(value: T) {
    predicate IsFailure() {
      None?
    }

    function PropagateFailure<U>(): Option<U>
      requires None?
    {
      None
    }

    function Extract(): T
      requires Some?
    {
      value
    }
  }

  datatype Result<+T, +E> = Success(value: T) | Failure(error: E) {
    predicate IsFailure() {
      Failure?
    }

    function PropagateFailure<U>(): Result<U, E>
      requires Failure?
    {
      Failure(error)
    }

    function Extract(): T
      requires Success?
    {
      value
    }
  }

  /** The same for readers that only succeed or fail. */
  function Guard(condition: bool): (r: Option<()>)
    ensures r.Some? <==> condition
  {
    if condition then Some(()) else None
  }

  /** `ensure condition, else fail with this error`: the shape of every early return in the validators. */
  function Need<E>(condition: bool, error: E): (r: Result<(), E>)
    ensures r.Success? <==> condition
    ensures r.Failure? ==> r.error == error
  {
    if condition then Success(()) else Failure(error)
  }
}
