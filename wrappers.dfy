/** A value or nothing: the NULL that the C functions return on failure. */
module Wrappers {
  datatype Option<T> = None | Some(value: T)
}
