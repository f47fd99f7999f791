/** Failure-aware wrappers shared by the analysis modules. */
module Outcomes {

  /** A value that may be undefined. `None` plays the role of a pandas NaN:
      every strict comparison involving it is false. */
  datatype Option<+T> = None | Some(value: T)

  /** The outcome of one analysis run: a value, or the reason the run stopped. */
  datatype Result<+T, +E> = Ok(value: T) | Err(error: E)
}
