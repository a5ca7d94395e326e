/** The optional value used where the source raises `ValueError`. */
module Wrappers {

  datatype Option<+T> = None | Some(value: T)
}
