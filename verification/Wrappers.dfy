/** The failure and absence wrappers the other modules share. */
module Wrappers {

  /** `undefined` or `null` in the program is `None`. */
  datatype Option<+T> = None | Some(value: T) {
    function GetOr(default: T): T {
      match this
      case None => default
      case Some(v) => v
    }
  }

  /** A value the program returned, or the error it threw. */
  datatype Result<+T, +E> = Ok(value: T) | Err(error: E)
}
