/** Failure-compatible wrappers shared by every module. */
module Wrappers {

  /** A value that may be absent: a missing dictionary key, or a parse that failed. */
  datatype Option<+T> = None | Some(value: T)

  /** The outcome of an operation that the Python code raises an exception from. */
  datatype Result<+T, +E> = Ok(value: T) | Err(error: E)
}
