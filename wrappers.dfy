/** Option, Outcome and Result values standing for Ruby's nil and for raised exceptions. */
module Wrappers {

  /** A value that may be nil. */
  datatype Option<+T> = None | Some(value: T) {
    /** Ruby's `x || default`: the value when there is one, otherwise the default. */
    function GetOr(default: T): T {
      match this
      case Some(v) => v
      case None => default
    }
  }

  /** The outcome of an operation that either completes or raises `error`. */
  datatype Outcome<+E> = Pass | Fail(error: E)

  /** The outcome of an operation that either returns `value` or raises `error`. */
  datatype Result<+R, +E> = Success(value: R) | Failure(error: E)
}
