/** Optional values and the outcome of an operation that may throw. */
module Wrappers {

  /** A value that may be absent: a TypeScript optional field or `undefined`. */
  datatype Option<+T> = None | Some(value: T) {

    /** The value, or `default` when absent (the `??` operator). */
    function GetOr(default: T): T {
      match this
      case Some(v) => v
      case None => default
    }
  }

  /** Either the operation completed, or it threw an error with this message. */
  datatype Outcome = Pass | Fail(msg: string)

  /** A value, or the message of the error thrown instead. */
  datatype Result<+T> = Ok(value: T) | Err(msg: string)
}
