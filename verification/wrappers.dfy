/** The Option type used wherever the source has `undefined`, `null` or a missing key. */
module Wrappers {
  datatype Option<+T> = None | Some(value: T)
}
