/**
  Fixed-width machine integers of the 64-bit targets the benchmarks are built for
  (`unsigned char`/`u8`, `int`/`i32`, `long long`/`i64`, `uint64_t`/`size_t`/`u64`/`usize`).

  Unsigned arithmetic in C and Rust's `wrapping_*` operations reduce modulo 2^64; they are
  written out with `WrappingAdd` and `WrappingMul`. Signed overflow in C and overflow of a
  plain `+` or `+=` in Rust are errors, so such values must stay in range: giving a
  variable one of the subset types below, signed or unsigned, makes the verifier prove
  that it does, from what the caller's `requires` guarantees.
*/
module MachineInts {

  const U64_MODULUS: int := 0x1_0000_0000_0000_0000
  const U64_MAX: int := U64_MODULUS - 1
  const U32_MAX: int := 0xFFFF_FFFF
  const I32_MIN: int := -0x8000_0000
  const I32_MAX: int := 0x7FFF_FFFF
  const I64_MIN: int := -0x8000_0000_0000_0000
  const I64_MAX: int := 0x7FFF_FFFF_FFFF_FFFF

  type uint8 = x: int | 0 <= x < 0x100
  type uint32 = x: int | 0 <= x <= U32_MAX
  type uint64 = x: int | 0 <= x < U64_MODULUS
  type int32 = x: int | I32_MIN <= x <= I32_MAX
  type int64 = x: int | I64_MIN <= x <= I64_MAX

  /** `a + b` on `uint64_t`, and Rust's `u64::wrapping_add`. */
  function WrappingAdd(a: uint64, b: uint64): uint64
  {
    (a + b) % U64_MODULUS
  }

  /** `a * b` on `uint64_t`, and Rust's `u64::wrapping_mul`. */
  function WrappingMul(a: uint64, b: uint64): uint64
  {
    (a * b) % U64_MODULUS
  }

  /** Reducing an addend modulo 2^64 before adding does not change the sum modulo 2^64. */
  lemma ModAddLeft(a: int, b: int)
    ensures (a % U64_MODULUS + b) % U64_MODULUS == (a + b) % U64_MODULUS
  {
  }

  /**
    A `uint64` accumulator that holds an exact total modulo 2^64 still does after a
    wrapping addition of `x`.
  */
  lemma WrappingAddTracks(acc: uint64, exact: int, x: uint64)
    requires acc == exact % U64_MODULUS
    ensures WrappingAdd(acc, x) == (exact + x) % U64_MODULUS
  {
    ModAddLeft(exact, x);
  }
}
