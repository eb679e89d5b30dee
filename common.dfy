/** Failure-carrying values shared by the modules of this model: a Java
    reference that may be null, and an operation that either completes or
    throws. */
module Common {

  /** A value that may be absent (a Java reference that may be null). */
  datatype Option<+T> = None | Some(value: T)

  /** The outcome of an operation that returns nothing or throws `error`. */
  datatype Outcome<+E> = Pass | Fail(error: E)

  /** The outcome of a computation that yields `value` or throws `error`. */
  datatype Result<+T, +E> = Ok(value: T) | Err(error: E)
}
