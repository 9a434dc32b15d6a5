/** The optional value used wherever Python code returns None or raises. */
module Wrappers {
  datatype Option<+T> = None | Some(value: T)
}
