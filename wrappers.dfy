/** Failure-compatible Option and Result types, and the Python exceptions the
    filter can raise while it processes a code block. */
module Wrappers {

  datatype Option<+T> = None | Some(value: T) {
    predicate IsFailure() { None? }

    function PropagateFailure<U>(): Option<U>
      requires None?
    {
      None
    }

    function Extract(): T
      requires Some?
    {
      value
    }

    function GetOr(default: T): T {
      match this
      case Some(v) => v
      case None => default
    }
  }

  datatype Result<+T, +E> = Success(value: T) | Failure(error: E) {
    predicate IsFailure() { Failure? }

    function PropagateFailure<U>(): Result<U, E>
      requires Failure?
    {
      Failure(error)
    }

    function Extract(): T
      requires Success?
    {
      value
    }
  }

  /** The Python exceptions that escape the filter's own code. */
  datatype PyError =
    | KeyError(key: string)   // a dictionary lookup of a missing key
    | IndexError              // `classes[0]` on an empty class list
    | ValueError              // `int()` of a non-number, or an unpacking of the wrong arity
    | TypeError               // `os.path.join()` called with no argument
}
