/** A value that may be absent, shared by the option scanner and the field
    splitter. */
module Wrappers {

  datatype Option<T> = None | Some(value: T)
}
