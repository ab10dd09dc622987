/** The absent-or-present value used where the page reads something that may be missing. */
module Wrappers {

  datatype Option<+T> = None | Some(value: T)

}
