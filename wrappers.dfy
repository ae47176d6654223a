/** The optional value used throughout the model for JavaScript's
    `undefined` and Python's `None`. */
module Wrappers {

  datatype Option<+T> = None | Some(value: T)
}
