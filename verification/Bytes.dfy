/** The fixed-width integers of the wire format. */
module Bytes {
  type Byte = b: int | 0 <= b < 0x100
  type Word = w: int | 0 <= w < 0x1_0000
}
