/** Stock failure-carrying datatypes shared by the whole model. */
module Wrappers {
  datatype Option<+T> = None | Some(value: T)
}
