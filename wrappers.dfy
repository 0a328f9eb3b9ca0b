/** The optional value used wherever Python returns None or swallows an exception. */
module Wrappers {
  datatype Option<+T> = None | Some(value: T)
}
