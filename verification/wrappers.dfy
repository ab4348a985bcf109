/** The usual optional value: a lookup that may fail, a match that may not exist. */
module Wrappers {

  datatype Option<+T> = None | Some(value: T)
}
