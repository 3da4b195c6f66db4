/** Machine integers, byte strings and the Option/Result wrappers the model uses. */
module Prim {

  /** Rust `u8`; also one byte of a UTF-8 string or an OS path. */
  type u8 = x: int | 0 <= x < 0x100

  /** Rust `u32`. */
  type u32 = x: int | 0 <= x < 0x1_0000_0000

  const U8Max: u8 := 0xFF
  const U32Max: u32 := 0xFFFF_FFFF

  /** A Rust `str`/`String` or a path, as the bytes it is made of. */
  type Bytes = seq<u8>

  const Dot: u8 := 0x2E     // '.'
  const Slash: u8 := 0x2F   // '/'
  const Caret: u8 := 0x5E   // '^'
  const Dollar: u8 := 0x24  // '$'

  /** The name "Library" (the macOS library directory the crawler skips). */
  const Library: Bytes := [0x4C, 0x69, 0x62, 0x72, 0x61, 0x72, 0x79]

  datatype Option<T> = None | Some(value: T)

  datatype Result<T, E> = Ok(value: T) | Err(error: E)
}
