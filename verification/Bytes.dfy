/** The bytes of buffers and files. */
module Bytes {
  newtype Byte = x: int | 0 <= x < 256
}
