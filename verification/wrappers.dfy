/** The optional value returned by the canvas's bounds-checked reads. */
module Wrappers {

  /** Either no value, or exactly one value. */
  datatype Option<+T> = None | Some(value: T)
}
