/** The two result types the model shares. */
module Wrappers {

  /** A value that may be absent: Python's None, or a lookup that finds nothing. */
  datatype Option<+T> = None | Some(value: T)

  /** The outcome of code that returns a value or raises. */
  datatype Result<+T, +E> = Ok(value: T) | Err(error: E)
}
