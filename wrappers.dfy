/** Small failure-carrying datatypes shared by the modules of the model. */
module Wrappers {

  /** An optional value; `None` plays the part of Go's nil error or nil pointer. */
  datatype Maybe<+T> = None | Some(value: T)
}
