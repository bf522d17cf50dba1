/** Failure-carrying value types shared by every module of the model. */
module Wrappers {

  /** A value that may be absent (a missing row, a conversion that did not succeed). */
  datatype Option<T> = None | Some(value: T)

  /** The outcome of an operation that throws in the source: a value, or the reason it threw. */
  datatype Result<T, E> = Ok(value: T) | Err(error: E)
}
