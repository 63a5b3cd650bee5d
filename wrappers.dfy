/** The optional value used where a JavaScript property may be missing. */
module Wrappers {

  datatype Option<+T> = None | Some(value: T)
}
