/** Optional values and typed outcomes, used instead of HTTP error responses. */
module Wrappers {

  datatype Option<+T> = None | Some(value: T)

  /** The result of a handler that produces a value or fails with an error. */
  datatype Result<+T, +E> = Ok(value: T) | Err(error: E)

  /** The result of a handler that produces no value. */
  datatype Outcome<+E> = Pass | Fail(error: E)
}
