/** Option and Result: `null` and thrown exceptions of the modelled Java code. */
module Wrappers {

  /** A Java reference that may be `null`. */
  datatype Option<+T> = None | Some(value: T)

  /** A value, or the exception that a Java method throws instead of returning. */
  datatype Result<+T, +E> = Ok(value: T) | Err(error: E)
}
