/** A value that may be absent: JavaScript's `null` next to an object. */
module Wrappers {
  datatype Option<T> = None | Some(value: T)
}
