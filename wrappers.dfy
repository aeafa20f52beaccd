/** The absent-or-present value used for nullable DOM lookups. */
module Wrappers {
  datatype Option<+T> = None | Some(value: T)
}
