/** The optional value main.js expresses with `null`. */
module Wrappers {

  datatype Option<+T> = None | Some(value: T)
}
