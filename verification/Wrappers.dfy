// Small datatypes shared by every module of the project.
module Wrappers {

  datatype Option<+T> = None | Some(value: T)

  // The result of an operation that can raise.
  datatype Result<+T, +E> = Ok(value: T) | Err(error: E)
}
