/** Failure-carrying datatypes shared by the model: `Option` stands for a
    nullable reference, `Result` for a call that either returns or throws. */
module Outcome {

  /** A value that may be absent (a .NET `null`). */
  datatype Option<+T> = None | Some(value: T) {

    /** The value, or `default` when absent (the `??` operator). */
    function GetOr(default: T): T {
      match this
      case Some(v) => v
      case None => default
    }
  }

  /** A call that returns `value` or raises `error`. */
  datatype Result<+T, +E> = Ok(value: T) | Err(error: E)
}
