/** The Some/None datatype used in place of JavaScript's `undefined` and `null`. */
module Wrappers {

  datatype Option<+T> = None | Some(value: T)
}
