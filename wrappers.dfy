/** The optional values that stand for JavaScript's `undefined`, and the results of calls that can fail. */
module Wrappers {
  datatype Option<+T> = None | Some(value: T)

  datatype Result<+T, +E> = Ok(value: T) | Err(error: E)
}
