/** Failure-carrying values used throughout the model in place of Python's
    `None` returns and raised exceptions. */
module Base {

  /** A value that may be absent (Python's `None`). */
  datatype Option<T> = None | Some(value: T)

  /** Either a computed value or the exception an operation raises. */
  datatype Result<T, E> = Ok(value: T) | Err(error: E)
}
