/** Failure-carrying wrappers shared by every module of the model. */
module Base {

  /** Python's `None`-or-value. */
  datatype Option<+T> = None | Some(value: T)

  /** A value, or the exception the Python code lets escape. */
  datatype Result<+T> = Ok(value: T) | Raises(error: string)
}
