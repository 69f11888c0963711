/** Failure-compatible wrappers shared by the other modules. */
module Wrappers {

  /** A value that may be absent; `None` plays the part of JavaScript's `undefined`. */
  datatype Option<+T> = None | Some(value: T) {
    function GetOr(default: T): T {
      match this
      case Some(v) => v
      case None => default
    }
  }

  /** The verdict of a check that carries no value on success. */
  datatype Outcome<+E> = Pass | Fail(error: E)
}
