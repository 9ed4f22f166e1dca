/** The optional value used wherever the application reads a field that a
    JSON body or a lookup may not have (JavaScript's `undefined`). */
module Wrappers {

  datatype Option<+T> = None | Some(value: T)
}
