/** The conventional Some/None datatype; `None` stands for a NULL pointer of the source. */
module Wrappers {

  datatype Option<+T> = None | Some(value: T)
}
