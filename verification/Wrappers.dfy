/** Optional values and results shared by the models. */
module Wrappers {

  /** SQL NULL or an absent value is None. */
  datatype Option<+T> = None | Some(value: T)

  /** A call that either returns or raises. */
  datatype Result<+T, +E> = Ok(value: T) | Err(error: E)
}
