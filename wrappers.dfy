/** Small value wrappers shared by the other modules. */
module Wrappers {

  /** An optional value: the source's `T | undefined` and `T | null`. */
  datatype Option<+T> = None | Some(value: T)
}
