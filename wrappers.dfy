/** The optional value used for absent prices and NaN z-scores. */
module Wrappers {
  datatype Option<+T> = None | Some(value: T)
}
