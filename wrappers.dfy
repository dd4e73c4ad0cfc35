/** The optional value JavaScript writes as `T | null`. */
module Wrappers {
  datatype Option<T> = None | Some(value: T)
}
