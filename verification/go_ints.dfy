/** Fixed-width Go integer types used by the enums of the program. */
module GoInts {
  newtype Int8 = x: int | -128 <= x < 128
  newtype Uint8 = x: int | 0 <= x < 256
  newtype Uint32 = x: int | 0 <= x < 0x1_0000_0000
}
