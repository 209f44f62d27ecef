/** The optional value the records use for fields a request may omit and the
    lookups use for "no record found". */
module Wrappers {

  datatype Option<T> = None | Some(value: T)
}
