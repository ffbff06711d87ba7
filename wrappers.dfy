/** Option and Result, the two failure-carrying wrappers the model uses. */
module Wrappers {

  /** `None` stands for pandas' NaN wherever an amount is concerned. */
  datatype Option<+T> = None | Some(value: T)

  /** The outcome of an operation that may raise: its value, or the exception it raises. */
  datatype Result<+R, +E> = Ok(value: R) | Err(error: E)
}
