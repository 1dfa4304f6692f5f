/** The optional value used wherever Python returns `None` in place of a value. */
module Wrappers {

  datatype Option<+T> = None | Some(value: T)
}
