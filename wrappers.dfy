/** The Option, Result and Outcome datatypes used throughout the model. */
module Wrappers {

  datatype Option<+T> = None | Some(value: T) {
    /** The wrapped value, or `default` when there is none. */
    function GetOr(default: T): T {
      match this
      case Some(v) => v
      case None => default
    }
  }

  /** A value or the exception that took its place. */
  datatype Result<+R, +E> = Success(value: R) | Failure(error: E) {
    /** The value, or `default` in place of an error. */
    function GetOr(default: R): R {
      match this
      case Success(v) => v
      case Failure(_) => default
    }
  }

  /** Normal completion, or the exception raised instead. */
  datatype Outcome<+E> = Pass | Fail(error: E)
}
