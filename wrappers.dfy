/** The nullable values of the source (`int?`, a `string[]` that may be null) as an Option. */
module Wrappers {
  datatype Option<+T> = None | Some(value: T)
}
