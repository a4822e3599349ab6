/** The optional value used for absent keys and for JavaScript's NaN. */
module Wrappers {
  datatype Option<+T> = None | Some(value: T)
}
