/** The optional-value datatype used for collaborators that may fail. */
module Wrappers {

  datatype Option<+T> = None | Some(value: T)
}
