/** Small failure-carrying datatypes shared by the model. */
module Wrappers {

  /** A value that may be absent (JavaScript `null` / `undefined`). */
  datatype Option<+T> = None | Some(value: T)

  /** The outcome of an operation that may be refused with an error. */
  datatype Result<+T, +E> = Ok(value: T) | Err(error: E)

  /** The result of `parseFloat` / `parseInt`: either NaN or a number. */
  datatype Parsed<+T> = NaN | Num(value: T)
}
