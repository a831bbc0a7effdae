/** The optional value used for absent blocks, missing property bodies and
    failed parses. */
module Wrappers {

  datatype Option<T> = None | Some(value: T)
}
