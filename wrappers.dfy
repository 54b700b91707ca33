/** Option and Result values shared by every module of the model. */
module Wrappers {

  /** A value that may be absent: JSON `null`, a missing key, Python `None`. */
  datatype Option<+T> = None | Some(value: T) {
    function GetOr(default: T): T {
      match this
      case Some(v) => v
      case None => default
    }
  }

  /** The outcome of a call that may raise: `Err` carries the exception's text. */
  datatype Result<+T> = Ok(value: T) | Err(message: string)
}
