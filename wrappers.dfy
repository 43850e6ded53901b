/** Failure-carrying values shared by the other modules. */
module Wrappers {

  /** Go's "value or nothing": a nil reference, an absent map entry, a nil error. */
  datatype Option<+T> = None | Some(value: T)
}
