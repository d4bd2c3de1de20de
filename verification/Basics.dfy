/** Types shared by every module: optional values, results with errors, and octets. */
module Basics {

  datatype Option<+T> = None | Some(value: T)

  datatype Result<+T, +E> = Ok(value: T) | Err(error: E)

  /** An octet, the source's uint8_t and unsigned char. */
  type byte = n: int | 0 <= n < 256

  const TWO_32: nat := 0x1_0000_0000
}
