/** A value that may be missing: a null pointer, an empty slot, an operation that throws. */
module Wrappers {
  datatype Option<T> = None | Some(value: T)
}
