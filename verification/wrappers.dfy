/** Failure-carrying datatypes shared by the other modules. */
module Wrappers {

  /** A value that may be absent; models Python's `None`. */
  datatype Option<+T> = None | Some(value: T)

  /** Either a computed value or the error the computation raised. */
  datatype Result<+T, +E> = Ok(value: T) | Err(error: E)
}
