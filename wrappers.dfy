/** Optional values, used where the Go code returns nil or a pointer that may be nil. */
module Wrappers {

  datatype Option<+T> = None | Some(value: T)

  /** A Go `byte`. */
  newtype Byte = x: int | 0 <= x < 256
}
