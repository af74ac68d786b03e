/** Swift's optionals and the two-armed outcomes the app's guards produce. */
module Wrappers {

  /** A Swift optional: `nil` or a wrapped value. */
  datatype Option<+T> = None | Some(value: T) {

    /** Swift's `x ?? default`. */
    function GetOr(default: T): T {
      match this
      case Some(v) => v
      case None => default
    }
  }

  /** The outcome of a check that either yields a value or names what went wrong. */
  datatype Result<+R, +E> = Success(value: R) | Failure(error: E)
}
