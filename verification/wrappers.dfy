/** Wrappers used by the model: an optional value and a success-or-error
    result. */
module Wrappers {

  /** A value that may be absent (`undefined` in the source's TypeScript). */
  datatype Option<+T> = None | Some(value: T)

  /** Either a computed value or the error that stopped the computation. */
  datatype Result<+T, +E> = Success(value: T) | Failure(error: E)
}
