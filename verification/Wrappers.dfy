/** Small shared types: an optional value and the byte. */
module Wrappers {
  datatype Option<+T> = None | Some(value: T)

  newtype byte = b: int | 0 <= b < 256
}
