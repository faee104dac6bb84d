/** The optional value used for C's nullable pointers: `None` is NULL. */
module Wrappers {

  datatype Option<+T> = None | Some(value: T)

}
