/** Option and Result, the two wrappers the model uses for C's NULL pointers
    and for the inputs on which the C code has no defined behaviour. */
module Wrappers {

  /** `None` plays the part of a NULL `char*`. */
  datatype Option<+T> = None | Some(value: T)

  datatype Result<+R, +E> = Ok(value: R) | Err(error: E)
}
