/** Outcome datatypes shared by the model: a value that may be absent, and
    the value-or-error shape of the source's `Result<T, String>` returns and
    rejected promises. */
module Wrappers {

  datatype Option<+T> = None | Some(value: T)

  datatype Result<+T, +E> = Ok(value: T) | Err(error: E)

  /** A success or failure that carries no value on success. */
  datatype Outcome<+E> = Pass | Fail(error: E)
}
