/** The optional value used for "no port found", "no digit" and "no delimiter". */
module Wrappers {

  datatype Option<+T> = None | Some(value: T)
}
