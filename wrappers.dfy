/** The absent-or-present value the store and the enum lookup hand back
    (Java's Optional, or a null reference). */
module Wrappers {

  datatype Option<+T> = None | Some(value: T)
}
