/**
  The mutable-borrow benchmark (examples/lifetime/generics_t, the `mut` variant only):
  a 64-bit linear congruential step is applied in place through a pointer or `&mut`,
  and every new value is added to a wrapping 64-bit accumulator.
*/
module GenericsT {
  import opened MachineInts
  import Cells

  const MULTIPLIER: uint64 := 6364136223846793005
  const SEED: uint64 := 123456789

  /** One step of the generator: `x * 6364136223846793005 + 1` modulo 2^64. */
  function Lcg(x: uint64): uint64
  {
    (x * MULTIPLIER + 1) % U64_MODULUS
  }

  /** The `k`-th iterate of the generator from the benchmark's seed. */
  function Iterate(k: nat): uint64
  {
    if k == 0 then SEED else Lcg(Iterate(k - 1))
  }

  /** The exact total of iterates 1 to `k`. */
  function IterateTotal(k: nat): nat
  {
    if k == 0 then 0 else IterateTotal(k - 1) + Iterate(k)
  }

  /** The wrapping accumulator after `k` iterations, one wrapping addition at a time. */
  function Acc(k: nat): uint64
  {
    if k == 0 then 0 else WrappingAdd(Acc(k - 1), Iterate(k))
  }

  /** The wrapping accumulator is the total of iterates 1 to `k`, modulo 2^64. */
  lemma {:induction false} AccIsTotalMod(k: nat)
    ensures Acc(k) == IterateTotal(k) % U64_MODULUS
  {
    if k > 0 {
      AccIsTotalMod(k - 1);
      WrappingAddTracks(Acc(k - 1), IterateTotal(k - 1), Iterate(k));
    }
  }

  /**
    Multiplying with `wrapping_mul` and then adding with `wrapping_add` (Rust), or
    multiplying and adding in `uint64_t` arithmetic (C, where each operation wraps),
    is one step of the generator.
  */
  lemma WrappingStepIsLcg(x: uint64)
    ensures WrappingAdd(WrappingMul(x, MULTIPLIER), 1) == Lcg(x)
  {
    ModAddLeft(x * MULTIPLIER, 1);
  }

  // ---------------------------------------------------------------------------
  // C
  // ---------------------------------------------------------------------------

  /**
    `process_u64_mut(value)`: `*value = (*value * 6364136223846793005ull) + 1ull` in
    `uint64_t`, whose arithmetic is carried out modulo 2^64, and the new value is
    returned.
  */
  method ProcessU64MutC(value: Cells.Ref<uint64>) returns (r: uint64)
    modifies value
    ensures value.value == Lcg(old(value.value))
    ensures r == value.value
  {
    value.value := (value.value * MULTIPLIER + 1) % U64_MODULUS;
    r := value.value;
  }

  /**
    `bench_mut(n)`: starting from `x = 123456789` and `acc = 0`, step `x` through a
    pointer `n` times and add each new value with `acc +=` on `uint64_t`. The result
    is the total of iterates 1 to `n` modulo 2^64.
  */
  method BenchMutC(n: uint64) returns (acc: uint64)
    ensures acc == Acc(n)
    ensures acc == IterateTotal(n) % U64_MODULUS
    ensures n == 0 ==> acc == 0
  {
    acc := 0;
    var x := new Cells.Ref(SEED);
    for i := 0 to n
      invariant x.value == Iterate(i)
      invariant acc == Acc(i)
    {
      var r := ProcessU64MutC(x);
      acc := WrappingAdd(acc, r);
    }
    AccIsTotalMod(n);
  }

  // ---------------------------------------------------------------------------
  // Rust
  // ---------------------------------------------------------------------------

  /**
    `process_u64_mut(x: &mut u64)`: `*x = x.wrapping_mul(6364136223846793005)
    .wrapping_add(1)`, and the new value is returned.
  */
  method ProcessU64MutRust(x: Cells.Ref<uint64>) returns (r: uint64)
    modifies x
    ensures x.value == Lcg(old(x.value))
    ensures r == x.value
  {
    WrappingStepIsLcg(x.value);
    x.value := WrappingAdd(WrappingMul(x.value, MULTIPLIER), 1);
    r := x.value;
  }

  /**
    `bench_mut(n)`: the same recurrence with `acc.wrapping_add`, so for every `n` it
    returns what the C `bench_mut(n)` returns.
  */
  method BenchMutRust(n: uint64) returns (acc: uint64)
    ensures acc == Acc(n)
    ensures acc == IterateTotal(n) % U64_MODULUS
    ensures n == 0 ==> acc == 0
  {
    acc := 0;
    var x := new Cells.Ref(SEED);
    for i := 0 to n
      invariant x.value == Iterate(i)
      invariant acc == Acc(i)
    {
      var r := ProcessU64MutRust(x);
      acc := WrappingAdd(acc, r);
    }
    AccIsTotalMod(n);
  }
}
