/** The optional-value datatype used for JavaScript properties that may be absent. */
module Wrappers {

  datatype Option<+T> = None | Some(value: T)
}
