/**
  The checksum loops of the dispatch and read-through-reference benchmarks add the
  same value on every iteration. `RepeatedSum(k, x)` is the exact total after `k`
  iterations, defined one iteration at a time as the loops compute it.
*/
module RepeatedSums {
  import opened MachineInts

  function RepeatedSum(k: nat, x: int): int
  {
    if k == 0 then 0 else RepeatedSum(k - 1, x) + x
  }

  /** The total after `k` iterations is `k * x`. */
  lemma {:induction false} RepeatedSumIsProduct(k: nat, x: int)
    ensures RepeatedSum(k, x) == k * x
  {
    if k > 0 {
      RepeatedSumIsProduct(k - 1, x);
    }
  }

  /**
    One more iteration of a wrapping `uint64` accumulator that holds the exact total
    modulo 2^64 again holds the exact total modulo 2^64.
  */
  lemma WrappingStep(k: nat, x: uint64)
    ensures WrappingAdd(RepeatedSum(k, x) % U64_MODULUS, x) == RepeatedSum(k + 1, x) % U64_MODULUS
  {
    WrappingAddTracks(RepeatedSum(k, x) % U64_MODULUS, RepeatedSum(k, x), x);
  }
}
