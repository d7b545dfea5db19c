/** The optional value and result types shared by every model in the project. */
module Options {
  datatype Option<+T> = None | Some(value: T)

  datatype Result<+T, +E> = Ok(value: T) | Err(error: E)
}
