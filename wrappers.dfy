/** Small helper datatype shared by the modules of this model. */
module Wrappers {

  /** An optional value: `None` plays the part of JavaScript's `undefined`. */
  datatype Option<+T> = None | Some(value: T)
}
