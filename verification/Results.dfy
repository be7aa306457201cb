// Optional arguments and the outcome of an operation that can raise an exception.
module Results {
  datatype Option<+T> = None | Some(value: T)

  datatype Result<+T> = Ok(value: T) | Err
}
