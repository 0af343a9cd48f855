/** A value that may be missing: the source's zero times, nil pointers and second results. */
module Wrappers {

  datatype Option<T> = None | Some(value: T)
}
