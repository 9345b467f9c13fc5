/** The absent-or-present and success-or-failure values used throughout the model. */
module Wrappers {

  /** A value that may be missing: JavaScript's `null` or `undefined` becomes `None`. */
  datatype Option<+T> = None | Some(value: T)

  /** The outcome of an operation that the source ends by throwing: `Err` carries what was thrown. */
  datatype Result<+T, +E> = Ok(value: T) | Err(error: E)
}
