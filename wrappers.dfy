/** An optional value: a missing index, a cancelled prompt. */
module Wrappers {
  datatype Option<+T> = None | Some(value: T)
}
