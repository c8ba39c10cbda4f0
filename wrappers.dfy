/** The optional value used wherever the Kotlin code returns null or a (-1, -1) sentinel. */
module Wrappers {
  datatype Option<+T> = None | Some(value: T)
}
