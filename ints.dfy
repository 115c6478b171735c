/** Fixed-width unsigned integers of the Rust source (64-bit target). */
module Ints {
  const U16_MAX: int := 0xFFFF
  const U32_LIMIT: int := 0x1_0000_0000
  const U64_MAX: int := 0xFFFF_FFFF_FFFF_FFFF
  const USIZE_MAX: int := U64_MAX

  type u8 = x: int | 0 <= x < 0x100
  type u16 = x: int | 0 <= x < 0x1_0000
  type u32 = x: int | 0 <= x < 0x1_0000_0000
  type u64 = x: int | 0 <= x < 0x1_0000_0000_0000_0000
  type usize = u64
  type i32 = x: int | -0x8000_0000 <= x < 0x8000_0000
}
