/** An optional value: a record field that may be missing from the catalog's JSON. */
module Wrappers {
  datatype Option<+T> = None | Some(value: T)
}
