/** Optional values and pass/fail outcomes, used for JavaScript's `undefined`/`null`
    and for the exceptions the server code throws. */
module Wrappers {

  /** A value that may be missing (`undefined` or `null` in the source). */
  datatype Option<+T> = None | Some(value: T) {
    function GetOr(default: T): T {
      match this
      case Some(v) => v
      case None => default
    }
  }

  /** The result of an operation that either completes or throws an error. */
  datatype Outcome<+E> = Pass | Fail(error: E)
}
