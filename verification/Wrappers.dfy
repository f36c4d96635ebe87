/** The optional value used for selections that may not have been made yet
    (an empty string in the components' state). */
module Wrappers {
  datatype Option<T> = None | Some(value: T)
}
