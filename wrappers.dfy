/** Failure-carrying wrappers shared by every module of the model: `Option` for Python's
    `None`-or-value, `Result` for a value or the exception the source would raise. */
module Wrappers {

  datatype Option<+T> = None | Some(value: T)

  datatype Result<+T, +E> = Ok(value: T) | Err(error: E)
}
