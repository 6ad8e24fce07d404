/** The optional-value datatype the collision scans return. */
module Wrappers {

  datatype Option<+T> = None | Some(value: T)
}
