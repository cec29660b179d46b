/** Optional values and results that carry a human-readable error message. */
module Wrappers {

  /** A value that may be absent (`undefined` / `null` in the application). */
  datatype Option<+T> = None | Some(value: T)

  /** The outcome of a computation that may throw an `Error(message)`. */
  datatype Result<+T> = Ok(value: T) | Err(message: string)
}
