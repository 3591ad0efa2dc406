/** A value that may be absent: JavaScript's optional properties and `undefined`. */
module Wrappers {

  datatype Option<+T> = None | Some(value: T)
}
