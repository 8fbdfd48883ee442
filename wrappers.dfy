/** Option and Result, used wherever the source returns null/None or raises. */
module Wrappers {

  datatype Option<+T> = None | Some(value: T) {
    function GetOr(default: T): T {
      match this
      case Some(v) => v
      case None => default
    }
  }

  /** `Err` carries the message of the exception the source throws or raises. */
  datatype Result<+T> = Ok(value: T) | Err(msg: string)

  /** What an HTTP handler answers: a body with a success status, or an error status with its message. */
  datatype Reply<+T> = Sent(status: nat, value: T) | Refused(status: nat, error: string)
}
