/** Optional values and results with an error, as the model's functions return them. */
module Wrappers {

  /** `undefined` or a value. */
  datatype Option<+T> = None | Some(value: T)

  /** A parsed value or the reason it was refused. */
  datatype Result<+R, +E> = Ok(value: R) | Err(error: E)
}
