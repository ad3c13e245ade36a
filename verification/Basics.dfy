/** Result types shared by the whole model. */
module Basics {
  datatype Option<+T> = None | Some(value: T)

  datatype Result<+T> = Ok(value: T) | Err

  newtype Byte = x: int | 0 <= x < 256
}
