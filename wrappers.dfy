/** The optional value used for operations that may fail without a reason worth naming. */
module Wrappers {
  datatype Option<+T> = None | Some(value: T)
}
