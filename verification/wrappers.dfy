/** The optional value used wherever the timer code passes `None`. */
module Wrappers {

  datatype Option<+T> = None | Some(value: T)
}
