/** The optional value used wherever the source has `null`/`undefined`, and the result of an operation that can fail. */
module Wrappers {

  datatype Option<+T> = None | Some(value: T) {

    /** The value, or `default` when there is none (the source's `x ?? default`). */
    function GetOr(default: T): T {
      match this
      case Some(v) => v
      case None => default
    }
  }

  /** A value, or the message of the error the source throws instead. */
  datatype Result<+T> = Ok(value: T) | Err(error: string)
}
