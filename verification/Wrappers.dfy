/** Optional values and results shared by every component of the model. */
module Wrappers {

  datatype Option<+T> = None | Some(value: T)

  datatype Result<+T, +E> = Ok(value: T) | Err(error: E)

  /** A byte. The Go and Rust strings of the model are sequences of bytes held as characters. */
  type Byte = b: int | 0 <= b < 256
}
