/** Failure-carrying result types shared by the other modules. */
module Wrappers {

  /** A value that may be missing: pandas' NaN / NaT, or a parse that failed. */
  datatype Option<+T> = None | Some(value: T)

  /** Either a value or the error that `fetch_reach` raises instead. */
  datatype Result<+R, +E> = Success(value: R) | Failure(error: E)
}
