/** The optional value shared by every module of the model. */
module Wrappers {

  /** A JavaScript `undefined`-or-value, or an optional result. */
  datatype Option<+T> = None | Some(value: T)
}
