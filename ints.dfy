/** The fixed-width integer types of the source, as ranges of `int`. */
module Ints {

  type U32 = x: int | 0 <= x < 0x1_0000_0000
  type U64 = x: int | 0 <= x < 0x1_0000_0000_0000_0000
  type I16 = x: int | -0x8000 <= x < 0x8000
  type Byte = x: int | 0 <= x < 0x100
}
