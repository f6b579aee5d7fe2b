/** Option and Result, the success-or-failure values used throughout the model. */
module Wrappers {

  /** A value that may be missing: `None` stands for a failed coordinate conversion. */
  datatype Option<+T> = None | Some(value: T)

  /** Either a value or the error that the pipeline raised instead. */
  datatype Result<+R, +E> = Success(value: R) | Failure(error: E)
}
