/** Optional values and results with an error value, used where the
    modelled code can fail (an out-of-range date, an unparsable string). */
module Wrappers {

  datatype Option<+T> = None | Some(value: T)

  datatype Result<+R, +E> = Success(value: R) | Failure(error: E)
}
