/** Failure-carrying values used throughout the model: an optional value (Python's `None`)
    and a result that is either a value or an error (a raised exception or an HTTP error). */
module Wrappers {

  datatype Option<+T> = None | Some(value: T)

  datatype Result<+T, +E> = Ok(value: T) | Err(error: E)
}
