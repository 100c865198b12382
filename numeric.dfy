/** The fixed-width unsigned integer types of the source, as bounded subsets of `int`. */
module Numeric {

  const U16_LIMIT: int := 0x1_0000
  const U32_LIMIT: int := 0x1_0000_0000
  const USIZE_LIMIT: int := 0x1_0000_0000_0000_0000  // a 64-bit target

  type u16 = x: int | 0 <= x < U16_LIMIT
  type u32 = x: int | 0 <= x < U32_LIMIT
  type usize = x: int | 0 <= x < USIZE_LIMIT
}
