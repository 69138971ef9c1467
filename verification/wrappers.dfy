/** Failure-compatible wrapper datatypes used throughout the model: an
    optional value (JavaScript `null`/`undefined`, Python `None`) and a
    result that is either a value or an error (a thrown exception). */
module Wrappers {

  /** A value that may be absent. */
  datatype Option<+T> = None | Some(value: T) {

    /** The value, or `default` when absent. */
    function GetOr(default: T): T {
      match this
      case Some(v) => v
      case None => default
    }
  }

  /** Either a value or an error standing for an exception. */
  datatype Result<+T, +E> = Success(value: T) | Failure(error: E)
}
