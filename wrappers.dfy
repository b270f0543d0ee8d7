/** Option and Result, the two failure-carrying shapes the model uses for
    JavaScript's `undefined` results and thrown errors. */
module Wrappers {

  datatype Option<+T> = None | Some(value: T)

  datatype Result<+T, +E> = Ok(value: T) | Err(error: E)

  /** The outcome of a check that returns nothing when it passes. */
  datatype Outcome<+E> = Pass | Fail(error: E)
}
