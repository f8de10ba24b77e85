/** Option and Result values standing in for Java's null references and thrown exceptions. */
module Wrappers {

  /** A reference that may be null. */
  datatype Option<+T> = None | Some(value: T)

  /** A value, or the exception the Java code would throw instead. */
  datatype Result<+T, +E> = Ok(value: T) | Err(error: E)
}
