/** The optional value used where the server returns a nil pointer. */
module Wrappers {

  datatype Option<+T> = None | Some(value: T)

}
