/** The optional value used for C's NULL-or-pointer results. */
module Wrappers {

  datatype Option<+T> = None | Some(value: T)
}
