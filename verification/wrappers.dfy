/** Option and Result, used for the source's null/undefined values and its error returns. */
module Wrappers {

  /** A value that may be missing: JavaScript's `null`/`undefined`, Go's `nil`. */
  datatype Option<+T> = None | Some(value: T) {
    function GetOr(default: T): T {
      match this
      case Some(v) => v
      case None => default
    }
  }

  /** The outcome of an operation that can fail: a thrown error or a Go `error` return. */
  datatype Result<+R, +E> = Success(value: R) | Failure(error: E)
}
