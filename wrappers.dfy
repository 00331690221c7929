/** The absent-or-present value that stands for Java's nullable results. */
module Wrappers {

  datatype Option<+T> = None | Some(value: T)
}
