/** Optional values and success-or-error results, used wherever the source
    returns `null`, `undefined` or an HTTP error response. */
module Wrappers {

  /** A value that may be absent: `null`/`undefined` in the source. */
  datatype Option<+T> = None | Some(value: T) {

    /** The carried value, or `default` when absent (JavaScript's `x || default`
        for a value whose only falsy form is absence). */
    function GetOr(default: T): T {
      match this
      case Some(v) => v
      case None => default
    }
  }

  /** Either a successful value or an error. */
  datatype Result<+R, +E> = Success(value: R) | Failure(error: E)
}
