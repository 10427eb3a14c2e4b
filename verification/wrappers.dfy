/** Failure-compatible wrapper used where the page reads a value that may be missing. */
module Wrappers {

  /** `None` stands for a missing DOM attribute or for JavaScript's NaN. */
  datatype Option<+T> = None | Some(value: T)
}
