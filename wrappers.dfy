/** Failure-carrying results: the Java services throw a RuntimeException with a
    message where these return `Err` / `Failed`. */
module Wrappers {

  datatype Option<+T> = None | Some(value: T) {
    function GetOr(default: T): T {
      match this
      case Some(v) => v
      case None => default
    }
  }

  /** The value of a lookup that either succeeds or throws with a message. */
  datatype Result<+T> = Ok(value: T) | Err(message: string)

  /** The outcome of an operation that returns nothing or throws with a message. */
  datatype Outcome = Done | Failed(message: string)
}
