/** Option and Result: the loader's "maybe absent" and "may throw" values. */
module Wrappers {

  datatype Option<+T> = None | Some(value: T)

  /** The outcome of a call that may throw: `Failure(e)` carries the thrown
      error in its string form, as the loader's catch path prints it. */
  datatype Result<+R, +E> = Success(value: R) | Failure(error: E)
}
