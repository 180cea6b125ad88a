/** Small helper datatypes shared by the other modules. */
module Wrappers {

  /** A value that may be absent (a null pointer, an index that was not found). */
  datatype Option<+T> = None | Some(value: T)
}
