/** The optional value used where a Float computation in the app yields "not a number". */
module Wrappers {

  datatype Option<+T> = None | Some(value: T)
}
