/** Option: a value that may be absent (Java's null, or a call that threw). */
module Wrappers {
  datatype Option<+T> = None | Some(value: T)
}
