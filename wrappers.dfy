/** Option and Result: the two ways a promise of the modelled code settles. */
module Wrappers {

  /** A value that may be absent; `None` also stands for JavaScript's `undefined`. */
  datatype Option<+T> = None | Some(value: T)

  /** A settled promise: `Success` for a resolved one, `Failure` for a rejected one. */
  datatype Result<+R, +E> = Success(value: R) | Failure(error: E)
}
