/**
 * The optional value used throughout the model for Python's `None`-or-value results, and
 * the outcome of a call that may raise.
 */
module Wrappers {

  datatype Option<+T> = None | Some(value: T) {

    /** The value of a `Some`, or the given default for `None`. */
    function GetOr(default: T): T {
      match this
      case Some(v) => v
      case None => default
    }
  }

  /** A call either returns a value or raises an exception with a message. */
  datatype Outcome<+T> = Returned(value: T) | Raised(message: string)
}
