/** The usual optional value, standing for a JavaScript property that may be null or absent. */
module Wrappers {
  datatype Option<+T> = None | Some(value: T)
}
