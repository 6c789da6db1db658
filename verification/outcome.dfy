/** Optional values and fallible results, standing in for Python's `None` and for
    the exceptions the modelled scripts raise. */
module Outcome {

  datatype Option<+T> = None | Some(value: T)

  datatype Result<+T, +E> = Ok(value: T) | Err(error: E)
}
