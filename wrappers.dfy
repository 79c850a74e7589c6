/** Option and Result, used where the source has `null`/`undefined` or throws. */
module Wrappers {

  datatype Option<+T> = None | Some(value: T)

  /** `Err(key)` stands for the TypeError thrown when field `key` is read but absent. */
  datatype Result<+T> = Ok(value: T) | Err(missing: string)
}
