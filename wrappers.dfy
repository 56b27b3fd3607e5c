/** An optional value: a lesson that may not have been found or chosen yet. */
module Wrappers {

  datatype Option<+T> = None | Some(value: T)
}
