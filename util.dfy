/** Small shared datatypes. */
module Util {

  /** Python's "value or None". */
  datatype Option<T> = None | Some(value: T)
}
