/** Small datatypes shared by every component of the model. */
module Common {

  /** A nullable column or an optional field. */
  datatype Option<+T> = None | Some(value: T)

  /** The source's returned value, or the error it throws. */
  datatype Result<+T, +E> = Ok(value: T) | Err(error: E)
}
