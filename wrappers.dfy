/** Optional values and fallible results, used where the source has `null`,
    an optional property, or a thrown error. */
module Wrappers {

  datatype Option<+T> = None | Some(value: T)

  datatype Result<+T> = Ok(value: T) | Err(error: string)
}
