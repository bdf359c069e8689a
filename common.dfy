/** Optional values and success/failure results shared by the other modules. */
module Common {

  /** A value that may be absent (Python's `None`). */
  datatype Option<+T> = None | Some(value: T)

  /** The outcome of an operation that either returns a value or raises an error message. */
  datatype Result<+T> = Success(value: T) | Failure(message: string)
}
