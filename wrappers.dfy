/** The absent-or-present value the source expresses with `false` or `null`. */
module Wrappers {
  datatype Option<+T> = None | Some(value: T)
}
