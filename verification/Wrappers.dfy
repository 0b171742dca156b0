/** Result types and the byte type shared by every module. */
module Wrappers {
  datatype Option<+T> = None | Some(value: T)
  {
    function GetOr(default: T): T {
      if Some? then value else default
    }
  }

  datatype Result<+T, +E> = Ok(value: T) | Err(error: E)

  /** One machine byte: the protocol and the memory map hold nothing wider. */
  type Byte = b: int | 0 <= b < 0x100
}
