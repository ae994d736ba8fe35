/** Success/failure values shared by the modules of the model. */
module Results {

  /** An optional value, used where the source stores `None`. */
  datatype Option<+T> = None | Some(value: T)

  /** The outcome of an operation that the source ends by raising an exception. */
  datatype Result<+T, +E> = Ok(value: T) | Err(error: E)
}
