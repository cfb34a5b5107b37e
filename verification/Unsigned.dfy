/** 64-bit unsigned numbers with the saturating operations of the Rust standard library. */
module Unsigned {

  const MAX := 0xFFFF_FFFF_FFFF_FFFF

  type u64 = x: int | 0 <= x <= MAX

  /** The result of `saturating_add` and `saturating_mul`, from the exact one. */
  function Saturate(n: nat): u64
  {
    if n <= MAX then n else MAX
  }

  /** `saturating_sub`. */
  function MinusOrZero(a: u64, b: u64): u64
  {
    if a >= b then a - b else 0
  }
}
