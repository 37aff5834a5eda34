/** Optional values and results with an error, as used throughout the gateway model. */
module Wrappers {

  /** A value that may be absent: Ruby's `nil` becomes `None`. */
  datatype Option<+T> = None | Some(value: T) {

    /** The value, or `default` when absent (Ruby's `x || default` on a value that is not `false`). */
    function GetOr(default: T): T {
      match this
      case Some(v) => v
      case None => default
    }
  }

  /** The outcome of a step that may raise: `Failure` is an exception nobody rescues. */
  datatype Result<+R, +E> = Success(value: R) | Failure(error: E)
}
