/** Failure-carrying datatypes shared by the rest of the model. */
module Wrappers {

  /** A value that may be absent: a C pointer that may be NULL. */
  datatype Option<+T> = None | Some(value: T)

  /** The outcome of a step that either produces a value or stops the program
      with an error (the C code's `exit(EXIT_FAILURE)` paths). */
  datatype Result<+T, +E> = Ok(value: T) | Err(error: E)
}
