/** Failure-carrying wrappers shared by every module of the model. */
module Common {

  /** A value that may be absent: Python's `None` or a falsy lookup result. */
  datatype Option<+T> = None | Some(value: T)

  /** The result of an operation that can raise: `Err` names the exception. */
  datatype Result<+T, +E> = Ok(value: T) | Err(error: E)
}
