/** Types shared by every module. */
module Common {

  datatype Option<+T> = None | Some(value: T)

  datatype Result<+T, +E> = Ok(value: T) | Err(error: E)

  /** One octet; the source works on Python `bytes` and Rust `Vec<u8>`. */
  type byte = b: int | 0 <= b < 256

  type bytes = seq<byte>

  /** The modulus of a 64-bit word. */
  const TWO_64: int := 0x1_0000_0000_0000_0000
}
