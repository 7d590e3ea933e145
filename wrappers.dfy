/** The optional value used wherever the source works with a value that may be `undefined`. */
module Wrappers {

  datatype Option<+T> = None | Some(value: T)
}
