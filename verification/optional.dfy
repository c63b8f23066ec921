/** A value that may be missing, and a value or an error: Python's `None` and exceptions. */
module Optional {
  datatype Option<+T> = None | Some(value: T)

  datatype Result<+T, +E> = Success(value: T) | Failure(error: E)
}
