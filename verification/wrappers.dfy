/** The optional value returned by a stack pop. */
module Wrappers {

  datatype Option<+T> = None | Some(value: T)
}
