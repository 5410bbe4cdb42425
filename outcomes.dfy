/**
 * Values that stand for JavaScript's `null`/`undefined` and for a thrown
 * `Error` whose `message` the callers inspect.
 */
module Outcomes {

  /** A value that may be absent (`null` or `undefined` in the source). */
  datatype Option<T> = None | Some(value: T) {
    /** JavaScript's `x || fallback` when the only falsy value of `x` is absence. */
    function GetOr(fallback: T): T {
      match this
      case Some(v) => v
      case None => fallback
    }
  }

  /** A call that either returns a value or throws an `Error` carrying `message`. */
  datatype Result<T> = Ok(value: T) | Err(message: string)
}
