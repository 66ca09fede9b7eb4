/** Optional values and results with an error, for the pages' `null`
    fields and for the handlers that stop early with an error message. */
module Wrappers {

  datatype Option<+T> = None | Some(value: T)

  datatype Result<+R, +E> = Ok(value: R) | Err(error: E)
}
