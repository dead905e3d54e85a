/** Option and Outcome: the model's stand-ins for C#/JavaScript null and for a thrown exception. */
module Wrappers {

  /** A nullable value: `None` is C#'s `null`. */
  datatype Option<+T> = None | Some(value: T) {

    /** The value, or `default` for `None` (C#'s `??`). */
    function GetOr(default: T): T {
      match this
      case Some(v) => v
      case None => default
    }
  }

  /** The result of an operation that either returns normally or throws `error`. */
  datatype Outcome<+E> = Pass | Fail(error: E)
}
