/** The optional value used for nullable results (a `localStorage` read, an optional prop). */
module Wrappers {
  datatype Option<+T> = None | Some(value: T)
}
