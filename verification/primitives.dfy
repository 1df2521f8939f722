/** Rust's fixed-width integer types. Arithmetic that leaves the range panics in a
    debug build, so every operation on these types states the range it needs. */
module Primitives {

  const U32_MAX: int := 0xFFFF_FFFF
  const I32_MIN: int := -0x8000_0000
  const I32_MAX: int := 0x7FFF_FFFF

  /** Rust's `u32`. */
  newtype u32 = x: int | 0 <= x <= U32_MAX

  /** Rust's `i32`. */
  newtype i32 = x: int | I32_MIN <= x <= I32_MAX
}
