/** Optional values and results with an error, as used throughout the model. */
module Wrappers {

  /** A JavaScript value that may be `undefined`/missing. */
  datatype Option<+T> = None | Some(value: T)

  /** The outcome of an operation that can throw: a value or the error it raised. */
  datatype Result<+T, +E> = Ok(value: T) | Err(error: E)
}
