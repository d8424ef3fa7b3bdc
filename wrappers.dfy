/** The usual optional-value wrapper: a JavaScript value that may be absent or falsy. */
module Wrappers {

  datatype Option<+T> = None | Some(value: T)
}
