/** The optional value used for JavaScript's `null` and for failed lookups. */
module Wrappers {
  datatype Option<+T> = None | Some(value: T)
}
