/** The optional-value type shared by the modules of this project. */
module Wrappers {

  /** A value that may be absent (`null`/`undefined` in the application). */
  datatype Option<+T> = None | Some(value: T)
}
