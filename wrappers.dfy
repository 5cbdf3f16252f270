/** A value that may be absent, used where the JavaScript code holds `null` or `undefined`. */
module Wrappers {
  datatype Option<T> = None | Some(value: T)
}
