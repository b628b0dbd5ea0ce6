/** Wrappers for a value that may be absent, and for a value or an error. */
module Wrappers {

  /** A lookup that may find nothing; `None` stands for Java's `null`. */
  datatype Option<+T> = None | Some(value: T)

  /** The outcome of an operation that either yields a value or fails with an error. */
  datatype Result<+T, +E> = Ok(value: T) | Err(error: E)
}
