/** The optional value used for lookups and for request bodies that may fail to decode. */
module Wrappers {
  datatype Option<+T> = None | Some(value: T)
}
