/** Value types shared by the rotator model: an optional value and the
    fixed-width integers the Go program uses. */
module Primitives {

  /** A value that may be absent: a failed lookup, an unparsable blob. */
  datatype Option<+T> = None | Some(value: T)

  /** Go's `byte`. */
  newtype byte = x: int | 0 <= x < 0x100

  /** Go's `uint32`, the type of a CRC-32 checksum. */
  newtype uint32 = x: int | 0 <= x < 0x1_0000_0000

  /** Go's `int64`, the type of Unix timestamps and of the checksum field of a secret payload. */
  newtype int64 = x: int | -0x8000_0000_0000_0000 <= x < 0x8000_0000_0000_0000

  type Bytes = seq<byte>
}
