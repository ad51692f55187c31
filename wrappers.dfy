/** Optional values and success-or-failure results, used wherever the
    source has an optional field, an `undefined`, or a `throw`. */
module Wrappers {

  datatype Option<+T> = None | Some(value: T)

  datatype Result<+R, +E> = Success(value: R) | Failure(error: E)
}
