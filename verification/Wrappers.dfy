/** Value types that the models share. */
module Wrappers {
  /** The conventional optional value. */
  datatype Option<+T> = None | Some(value: T)

  newtype byte = x: int | 0 <= x < 256

  type Bytes = seq<byte>
}
