/** Stock types. */
module Wrappers {
  datatype Option<+T> = None | Some(value: T)

  type Byte = x: nat | x < 256
}
