/** Machine-width integers shared by the binary decoder and the text
    encoders. */
module Bytes {
  type byte = x: int | 0 <= x < 256
  type u32 = x: int | 0 <= x < 0x1_0000_0000
}
