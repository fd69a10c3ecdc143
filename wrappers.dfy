/** Option and Result, the shapes every store call and every endpoint returns. */
module Wrappers {

  /** A value that may be absent: JavaScript's `undefined`/`null` become None. */
  datatype Option<+T> = None | Some(value: T) {

    /** The value, or `default` when absent (JavaScript's `x ?? default`). */
    function GetOr(default: T): T {
      match this
      case Some(v) => v
      case None => default
    }
  }

  /** A store call's `{ data, error }` pair: exactly one of the two is set. */
  datatype Result<+R, +E> = Success(value: R) | Failure(error: E)
}
