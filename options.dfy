/** The optional value used wherever the source has `undefined` or `null`, and the
    outcome of a call that may throw. */
module Options {
  datatype Option<T> = None | Some(value: T)

  /** A value, or the message of the error thrown instead. */
  datatype Result<T> = Ok(value: T) | Err(message: string)
}
