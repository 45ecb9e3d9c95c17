/** Optional values and results, as the rest of the model uses them. */
module Wrappers {

  /** A value that may be absent: JavaScript's `null`/`undefined`, or an omitted key. */
  datatype Option<+T> = None | Some(value: T) {
    function GetOr(default: T): T {
      if Some? then value else default
    }
  }

  /** The outcome of a call to the store that returns data. */
  datatype Result<+T, +E> = Success(value: T) | Failure(error: E)
}
