/** Optional values and results with an error, as the pipeline's stages use them. */
module Wrappers {

  /** A value that may be missing: pandas' NaN/NaT/None in a cell. */
  datatype Option<+T> = None | Some(value: T)

  /** The outcome of a call that either returns or raises. */
  datatype Result<+R, +E> = Success(value: R) | Failure(error: E)
}
