/** The optional-value datatype used for lookups and clipping results. */
module Wrappers {

  /** A value that may be absent: the model's stand-in for a NULL pointer. */
  datatype Option<+T> = None | Some(value: T)
}
