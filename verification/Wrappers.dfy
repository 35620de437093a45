/** The result types shared by the other modules. */
module Wrappers {
  datatype Option<+T> = None | Some(value: T) {
    /** The held value, or `default` when there is none (the source's `??`). */
    function GetOr(default: T): T {
      match this
      case Some(v) => v
      case None => default
    }
  }

  /** A returned value or a thrown error. */
  datatype Result<+T, +E> = Ok(value: T) | Err(error: E)
}
