/** The optional value used wherever the source returns a possibly null handle. */
module Wrappers {
  datatype Option<+T> = None | Some(value: T)
}
