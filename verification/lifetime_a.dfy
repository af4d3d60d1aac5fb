/**
  The read-through-reference benchmark (examples/lifetime/lifetime_a): `add` reads a
  64-bit value through a pointer or shared reference and returns it plus one, and the
  loop adds the results into a wrapping 64-bit accumulator.
*/
module LifetimeA {
  import opened MachineInts
  import opened RepeatedSums
  import Cells

  /** `add(x)` in C: `*x + 1` in `uint64_t`, read through the pointer, never written. */
  function AddC(x: Cells.Ref<uint64>): (r: uint64)
    reads x
    ensures x.value < U64_MAX ==> r == x.value + 1
    ensures x.value == U64_MAX ==> r == 0
  {
    WrappingAdd(x.value, 1)
  }

  /**
    `main` of the C program with `N` and the initial `v` as parameters:
    `acc += add(&v)` on `uint64_t`, `n` times. `v` keeps its value, so the accumulator
    is `n` copies of `v + 1`, modulo 2^64.
  */
  method RunC(n: uint64, v: uint64) returns (acc: uint64)
    ensures acc == RepeatedSum(n, WrappingAdd(v, 1)) % U64_MODULUS
    ensures acc == (n * WrappingAdd(v, 1)) % U64_MODULUS
  {
    var x := new Cells.Ref(v);
    acc := 0;
    for i := 0 to n
      invariant x.value == v
      invariant acc == RepeatedSum(i, WrappingAdd(v, 1)) % U64_MODULUS
    {
      var a := AddC(x);
      WrappingStep(i, a);
      acc := WrappingAdd(acc, a);
    }
    RepeatedSumIsProduct(n, WrappingAdd(v, 1));
  }

  /**
    `add(x: &u64)` in Rust: `*x + 1`. A `u64` addition must not overflow, so the value
    read must be below `u64::MAX`.
  */
  function AddRust(x: Cells.Ref<uint64>): (r: uint64)
    reads x
    requires x.value < U64_MAX
    ensures r == x.value + 1 && r == AddC(x)
  {
    x.value + 1
  }

  /**
    `main` of the Rust program with `N` and `v` as parameters:
    `acc = acc.wrapping_add(add(&v))`, `n` times, so `n` copies of `v + 1` modulo 2^64.
  */
  method RunRust(n: uint64, v: uint64) returns (acc: uint64)
    requires v < U64_MAX
    ensures acc == RepeatedSum(n, v + 1) % U64_MODULUS
    ensures acc == (n * (v + 1)) % U64_MODULUS
  {
    var x := new Cells.Ref(v);
    acc := 0;
    for i := 0 to n
      invariant x.value == v
      invariant acc == RepeatedSum(i, v + 1) % U64_MODULUS
    {
      var a := AddRust(x);
      WrappingStep(i, a);
      acc := WrappingAdd(acc, a);
    }
    RepeatedSumIsProduct(n, v + 1);
  }

  /**
    The programs' own instance: 50000000 iterations with `v = 123` give 6200000000 in
    both languages, since 123 + 1 does not wrap.
  */
  lemma SixPointTwoBillion()
    ensures WrappingAdd(123, 1) == 123 + 1
    ensures RepeatedSum(50000000, 123 + 1) % U64_MODULUS == 6200000000
  {
    RepeatedSumIsProduct(50000000, 123 + 1);
  }
}
