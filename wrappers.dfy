/** The optional-value datatype used for faults and parse results. */
module Wrappers {
  datatype Option<+T> = None | Some(value: T)
}
