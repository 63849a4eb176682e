/** The optional-value datatype used for values the session may not hold yet. */
module Wrappers {

  datatype Option<+T> = None | Some(value: T)
}
