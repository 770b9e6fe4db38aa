/** The optional value used where the JavaScript source passes `undefined`. */
module Wrappers {
  datatype Option<+T> = None | Some(value: T)
}
