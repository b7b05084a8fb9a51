/** Bytes, and results that may be absent. */
module Wrappers {
  type Byte = b: int | 0 <= b < 256

  type Bytes = seq<Byte>

  datatype Option<+T> = None | Some(value: T)
}
