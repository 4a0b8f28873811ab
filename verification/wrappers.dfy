/** Optional values and success-or-error results, used for Python's
    "nothing found" answers and for the exceptions the scheduler can raise. */
module Wrappers {

  datatype Option<+T> = None | Some(value: T)

  datatype Result<+R, +E> = Success(value: R) | Failure(error: E)
}
