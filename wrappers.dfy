/** Optional values and error-carrying results, used where the source
    returns `undefined` or throws an `Error`. */
module Wrappers {

  datatype Option<+T> = None | Some(value: T)

  /** `Err(message)` stands for a thrown `Error` whose `message` is `message`. */
  datatype Result<+T> = Ok(value: T) | Err(error: string)
}
