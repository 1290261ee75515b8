/** Option and Result datatypes for the decoder's lookups and the speed estimator's errors. */
module Wrappers {

  /** An optional value: the result of a lookup that may find nothing. */
  datatype Option<+T> = None | Some(value: T)

  /** Either a value or the reason no value could be computed. */
  datatype Result<+R, +E> = Success(value: R) | Failure(error: E)
}
