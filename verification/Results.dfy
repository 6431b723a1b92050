// Shared result shapes: an optional value, and an outcome that is either a value or an error.

module Results {

  datatype Option<+T> = None | Some(value: T)

  datatype Result<+T, +E> = Ok(value: T) | Err(error: E)
}
