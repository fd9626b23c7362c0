/** Optional values and results that carry an error: the model's stand-ins for
    Python's `None` and for the exceptions the scripts let propagate. */
module Wrappers {

  datatype Option<+T> = None | Some(value: T)

  datatype Result<+T, +E> = Success(value: T) | Failure(error: E)
}
