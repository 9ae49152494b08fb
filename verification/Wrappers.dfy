/** Optional values, for Go's nil pointers and absent map entries, and results
    that may be an error. */
module Wrappers {

  datatype Option<T> = None | Some(value: T)

  datatype Result<T> = Ok(value: T) | Err(message: string)
}
