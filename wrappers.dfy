/** Optional values and error results shared by every module of the model. */
module Wrappers {

  /** An absent value: Python's None, SQL NULL or C's NULL pointer. */
  datatype Option<+T> = None | Some(value: T)

  /** Either a value or the error the source raises instead of returning one. */
  datatype Result<+R, +E> = Success(value: R) | Failure(error: E)
}
