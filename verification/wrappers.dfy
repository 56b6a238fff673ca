/** Optional values and success/failure outcomes, standing in for JavaScript's
    `undefined`/`null` and for promises that resolve or reject. */
module Wrappers {

  /** A value that may be absent (`undefined` or `null` in the source). */
  datatype Option<+T> = None | Some(value: T) {
    function GetOr(default: T): T {
      match this
      case Some(v) => v
      case None => default
    }
  }

  /** The result of an awaited call: it resolved with a value or rejected with a message. */
  datatype Result<+T> = Ok(value: T) | Err(error: string)

  /** The result of an awaited call whose resolved value is not used. */
  datatype Outcome = Pass | Fail(error: string)
}
