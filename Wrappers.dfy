/** The optional value used for a course average that may be missing. */
module Wrappers {

  /** `None` stands for the source's `null` and `undefined` alike. */
  datatype Option<+T> = None | Some(value: T)
}
