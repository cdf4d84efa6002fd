/** Values shared by every module of the model: an optional value (JavaScript's
    `undefined`/`null` versus a present value) and the result of an awaited call
    (a value, or the error it threw). */
module Outcomes {

  /** An error as the system throws it; only its message is modelled. */
  type Error = string

  datatype Option<+T> = None | Some(value: T) {

    /** The value, or `default` when absent (JavaScript's `??`). */
    function GetOr(default: T): T {
      match this
      case Some(v) => v
      case None => default
    }
  }

  /** The settled value of a promise: fulfilled with a value, or rejected. */
  datatype Result<+T> = Ok(value: T) | Thrown(error: Error)
}
