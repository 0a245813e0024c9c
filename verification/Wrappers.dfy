/** The result type every component of the model shares. */
module Wrappers {

  /** A value that may be absent: a missing map key, a unit not yet started. */
  datatype Option<+T> = None | Some(value: T)
}
