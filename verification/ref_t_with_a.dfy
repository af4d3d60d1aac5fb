/**
  The reference-wrapper benchmark (examples/lifetime/ref_t_with_a): a struct holding one
  reference to an `int` is built on every iteration, a function reads the `int` through
  it, and the results are added into a 64-bit signed sum. In Rust the read goes through
  `AsRef<i32>`.
*/
module RefTWithA {
  import opened MachineInts
  import opened RepeatedSums
  import Cells

  /** `IntRef`: C's `{ int *ptr; }` and Rust's `IntRef<'b>(&'b i32)`. */
  datatype IntRef = IntRef(ptr: Cells.Ref<int32>)

  /** `process_bound(item)` in C: `*(item.ptr)`. */
  function ProcessBoundC(item: IntRef): (r: int32)
    reads item.ptr
    ensures r == item.ptr.value
  {
    item.ptr.value
  }

  /** `<IntRef as AsRef<i32>>::as_ref`: the wrapped reference, `self.0`. */
  function AsRef(item: IntRef): (r: Cells.Ref<int32>)
    ensures r == item.ptr
  {
    item.ptr
  }

  /** `process_bound(item)` in Rust: `*item.as_ref()`. */
  function ProcessBoundRust(item: IntRef): (r: int32)
    reads item.ptr
    ensures r == item.ptr.value && r == ProcessBoundC(item)
  {
    AsRef(item).value
  }

  /** A product `i * v` with `0 <= i <= n` lies between 0 and `n * v`. */
  lemma ProductBetween(i: int, n: int, v: int)
    requires 0 <= i <= n
    ensures if v >= 0 then 0 <= i * v <= n * v else n * v <= i * v <= 0
  {
    assert n * v - i * v == (n - i) * v;
  }

  /**
    `main` of the C program with `val` and `iterations` as parameters: every iteration
    wraps `&val` in a fresh `IntRef` and adds `process_bound` of it into a `long long`.
    `val` is never written. Signed overflow is undefined in C, so the final total must
    fit in a `long long`; then every partial sum does too, and the sum is
    `iterations * val`.
  */
  method RunC(val: int32, iterations: int64) returns (sum: int64)
    requires iterations <= 0 || I64_MIN <= iterations * val <= I64_MAX
    ensures sum == if iterations <= 0 then 0 else iterations * val
  {
    var v := new Cells.Ref(val);
    sum := 0;
    var i: int64 := 0;
    while i < iterations
      invariant 0 <= i && (iterations >= 0 ==> i <= iterations) && (iterations <= 0 ==> i == 0)
      invariant v.value == val
      invariant sum == RepeatedSum(i, val)
    {
      var temp := IntRef(v);
      RepeatedSumIsProduct(i + 1, val);
      ProductBetween(i + 1, iterations, val);
      sum := sum + ProcessBoundC(temp);
      i := i + 1;
    }
    RepeatedSumIsProduct(i, val);
  }

  /**
    `main` of the Rust program with `val` and `iterations` as parameters: every
    iteration adds `process_bound(IntRef(&val)) as i64`. The range `0..iterations`
    is an `i32` range, so the `i64` sum never overflows; it is `iterations * val`.
  */
  method RunRust(val: int32, iterations: int32) returns (sum: int64)
    ensures sum == if iterations <= 0 then 0 else iterations * val
  {
    var v := new Cells.Ref(val);
    sum := 0;
    var i: int32 := 0;
    while i < iterations
      invariant 0 <= i && (iterations >= 0 ==> i <= iterations) && (iterations <= 0 ==> i == 0)
      invariant v.value == val
      invariant sum == RepeatedSum(i, val)
    {
      var result := ProcessBoundRust(IntRef(v));
      RepeatedSumIsProduct(i + 1, val);
      ProductBetween(i + 1, I32_MAX, val);
      sum := sum + result;
      i := i + 1;
    }
    RepeatedSumIsProduct(i, val);
  }

  /**
    The programs' own instance: 1000000000 reads of 10 add up to 10000000000, which
    fits in a `long long`, so the C program meets `RunC`'s requirement.
  */
  lemma TenBillion()
    ensures RepeatedSum(1000000000, 10) == 10000000000 <= I64_MAX
  {
    RepeatedSumIsProduct(1000000000, 10);
  }
}
