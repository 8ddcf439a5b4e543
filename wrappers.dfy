/** Optional values and fallible results, used where the program returns
    `Option` or `anyhow::Result`. */
module Wrappers {

  datatype Option<+T> = None | Some(value: T)

  /** `Err` carries the error message the program attaches. */
  datatype Result<+T> = Ok(value: T) | Err(message: string)
}
