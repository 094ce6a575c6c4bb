/** Optional values, used for JavaScript's `undefined`, Python's `None` and
    "no response" results throughout the model, and results of steps that
    may throw. */
module Wrappers {

  datatype Option<+T> = None | Some(value: T) {

    /** The carried value, or `default` when there is none (JavaScript's `x || default`). */
    function GetOr(default: T): T
    {
      match this
      case Some(v) => v
      case None => default
    }
  }

  /** The outcome of a step that may throw: a value, or the thrown error as
      `String(e)` shows it. */
  datatype Result<+T> = Success(value: T) | Failure(error: string)
}
