/** Optional values and error results used throughout the model. */
module Wrappers {

  /** A value that may be absent; stands for a C# null reference. */
  datatype Option<T> = None | Some(value: T)

  /** A computed value or the error that prevented it. */
  datatype Result<T, E> = Ok(value: T) | Err(error: E)

  /** Success without a value, or the error (an exception in the source) that ended the operation. */
  datatype Outcome<E> = Pass | Fail(error: E)
}
