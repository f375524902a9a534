/** An optional value, for the source's nil pointers, zero times and empty one-slot buffers. */
module Wrappers {
  datatype Option<+T> = None | Some(value: T)
}
