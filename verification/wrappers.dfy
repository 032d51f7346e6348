/** The optional value used for C++ null pointers and missing results. */
module Wrappers {

  datatype Option<T> = None | Some(value: T)
}
