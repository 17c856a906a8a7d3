/** The optional and fallible values, and the bytes, shared by every module of the model. */
module Wrappers {

  datatype Option<+T> = None | Some(value: T) {
    function UnwrapOr(default: T): T {
      if Some? then value else default
    }
  }

  datatype Result<+T, +E> = Ok(value: T) | Err(error: E)

  newtype Byte = b: int | 0 <= b < 256
}
