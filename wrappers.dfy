/** Small shared wrapper types. */
module Wrappers {

  /** A value that may be absent: stands for a nullable pointer. */
  datatype Option<+T> = None | Some(value: T)
}
