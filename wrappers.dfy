/** The absent-or-present value, used where the script's lookups may yield `undefined`. */
module Wrappers {

  datatype Option<+T> = None | Some(value: T)
}
