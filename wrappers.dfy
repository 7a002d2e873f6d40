/** The optional and error-carrying values the model uses for JavaScript's
    `null` / `undefined` and for thrown errors. */
module Wrappers {

  /** A value that may be absent (`null` in the source). */
  datatype Option<+T> = None | Some(value: T)

  /** The outcome of an operation that fails fast in the source by throwing. */
  datatype Result<+R, +E> = Success(value: R) | Failure(error: E)
}
