/** The optional value used throughout the model for `undefined`-or-something results. */
module Wrappers {

  datatype Option<+T> = None | Some(value: T)

}
