/** Optional values and the outcome of a Swift function that `throws` and returns nothing. */
module Wrappers {

  /** Swift's `T?`. */
  datatype Option<+T> = None | Some(value: T)

  /** A call that either returns normally (`Pass`) or throws `error` (`Fail`). */
  datatype Outcome<+E> = Pass | Fail(error: E)
}
