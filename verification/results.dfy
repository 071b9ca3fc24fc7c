/** Failure-carrying wrappers shared by the task list and the listener list. */
module Results {

  /** A value that may be absent: a list search that finds nothing, a file that does not exist. */
  datatype Option<+T> = None | Some(value: T)

  /** The outcome of an operation that either succeeds with a value or raises an error. */
  datatype Result<+T, +E> = Ok(value: T) | Err(error: E)
}
