/** Fixed-width integer ranges of the contract (Rust `i128`, `u64`, `u32`) and
    the few width-aware operations it uses. Checked arithmetic is not a function
    here: each caller tests the range of the exact result and aborts, as the
    contract's `checked_*(..).expect(..)` calls do. */
module Numeric {

  const I128_MIN: int := -0x8000_0000_0000_0000_0000_0000_0000_0000
  const I128_MAX: int := 0x7fff_ffff_ffff_ffff_ffff_ffff_ffff_ffff
  const U64_MAX: int := 0xffff_ffff_ffff_ffff
  const U32_MAX: int := 0xffff_ffff

  predicate InI128(x: int) { I128_MIN <= x <= I128_MAX }

  predicate InU64(x: int) { 0 <= x <= U64_MAX }

  type I128 = x: int | I128_MIN <= x <= I128_MAX

  type U64 = x: int | 0 <= x <= U64_MAX

  type U32 = x: int | 0 <= x <= U32_MAX

  /** `u64::saturating_add`: the sum, or `U64_MAX` when the sum does not fit. */
  function SaturatingAdd(a: U64, b: U64): U64
  {
    if InU64(a + b) then a + b else U64_MAX
  }

  /** `u64::saturating_sub`: the difference, or 0 when it would be negative. */
  function SaturatingSub(a: U64, b: U64): U64
  {
    if a >= b then a - b else 0
  }

  /** Rust integer division by a positive divisor: rounds toward zero
      (Dafny's `/` rounds toward negative infinity for negative dividends). */
  function TruncDiv(a: int, d: int): int
    requires d > 0
  {
    if a >= 0 then a / d else -((-a) / d)
  }
}
