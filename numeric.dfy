/** Fixed-width machine integers used by the engine: `u8` and `u32`. */
module Numeric {

  const U32_MODULUS: int := 0x1_0000_0000

  newtype byte = x: int | 0 <= x < 256

  newtype u32 = x: int | 0 <= x < 0x1_0000_0000

  /** Rust's `n as u32` on a `usize`: keeps the low 32 bits. */
  function TruncateU32(n: nat): (r: u32)
    ensures n < U32_MODULUS ==> r as int == n
  {
    (n % U32_MODULUS) as u32
  }

  /** `4 * x` on `u32` in a release build, where an overflowing product wraps around. */
  function WrappingMul4(x: u32): (r: u32)
    ensures x as int < U32_MODULUS / 4 ==> r as int == 4 * x as int
  {
    ((4 * x as int) % U32_MODULUS) as u32
  }
}
