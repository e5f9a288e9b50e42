/** Success/failure wrappers used for the source's exceptions and optional values. */
module Results {

  /** A value that may be absent (a missing object key, an error that did not happen). */
  datatype Option<+T> = None | Some(value: T)

  /** The outcome of an operation that throws in the source: a value or the error it throws. */
  datatype Result<+T, +E> = Ok(value: T) | Err(error: E)
}
