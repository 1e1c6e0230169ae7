/** Failure-compatible result types shared by the sandpile and the FPU chain models. */
module Wrappers {

  /** A value that may be missing; used for reads of indeterminate memory. */
  datatype Option<+T> = None | Some(value: T)

  /** Either a value or the exception the source would raise. */
  datatype Result<+T, +E> = Success(value: T) | Failure(error: E)
}
