/** Optional values and results with an error, used across the model. */
module Wrappers {

  /** A value that may be absent; `None` stands for a NULL pointer of the source. */
  datatype Option<T> = None | Some(value: T)

  /** The outcome of an operation that may fail with an error of type `E`. */
  datatype Result<T, E> = Ok(value: T) | Err(error: E)
}
