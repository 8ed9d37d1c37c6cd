/** The `Option` datatype shared by the other modules. */
module Wrappers {

  /** A value that may be missing: Go's `(v, ok)` pairs and nil-able results. */
  datatype Option<+T> = None | Some(value: T)
}
