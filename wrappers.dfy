/** A value that may be absent: the model's rendering of JavaScript's `null`. */
module Wrappers {

  datatype Option<+T> = None | Some(value: T)
}
