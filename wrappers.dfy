/** Option, Result and Outcome: the value-level stand-ins for `undefined`,
    for a handler that either answers with data or with an error status,
    and for a middleware that either calls `next()` or answers with an error. */
module Wrappers {

  datatype Option<+T> = None | Some(value: T) {
    /** The value, or `d` when absent (the `??` / `.default(...)` of the source). */
    function GetOr(d: T): T
    {
      match this
      case Some(v) => v
      case None => d
    }
  }

  datatype Result<+T, +E> = Success(value: T) | Failure(error: E)

  /** `Pass` is a middleware calling `next()`; `Fail(e)` is it answering with `e`. */
  datatype Outcome<+E> = Pass | Fail(error: E)
}
