/** Outcome types for calls into external code that either return a value or raise. */
module Wrappers {

  /** A value that may be missing (Python's `None`, or a missing dictionary key). */
  datatype Option<T> = None | Some(value: T) {
    function GetOr(default: T): T {
      match this
      case Some(v) => v
      case None => default
    }
  }

  /** The outcome of a call that may raise: its value, or the text of the exception. */
  datatype Result<T> = Ok(value: T) | Err(error: string)
}
