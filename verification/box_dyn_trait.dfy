/**
  The dispatch benchmark (examples/lifetime/box_dyn_trait): a method that returns 1 is
  called many times, statically or through a table of function pointers, and the
  results are added up. C builds the table by hand; Rust uses a trait, called on a
  concrete type (static dispatch) or through `Box<dyn Animal>` (dynamic dispatch).
*/
module BoxDynTrait {
  import opened MachineInts
  import opened Wrappers

  // ---------------------------------------------------------------------------
  // C: `VTable { int (*speak)(void *); }`, `DynAnimal { void *data; VTable *vtable; }`
  // ---------------------------------------------------------------------------

  /** A `void *`: NULL or some address. */
  datatype Ptr = Null | Address(addr: nat)

  /** `cat_speak(self)`: returns 1 and never looks at `self`. */
  function CatSpeak(self: Ptr): (r: int32)
    ensures r == 1
  {
    1
  }

  /** A table of function pointers with one entry. */
  datatype VTable = VTable(speak: Ptr -> int32)

  /** `CAT_VTABLE`, whose `speak` entry is `cat_speak`. */
  const CAT_VTABLE: VTable := VTable(CatSpeak)

  /** A call through `CAT_VTABLE` is a call of `cat_speak`, whatever the data pointer. */
  lemma CatVTableDispatch()
    ensures forall p: Ptr :: CAT_VTABLE.speak(p) == CatSpeak(p) == 1
  {
  }

  /** An object reached through its data pointer and its table. */
  datatype DynAnimal = DynAnimal(data: Ptr, vtable: VTable)

  /**
    `main` of the C program with the bound of the `int` loop counter as a parameter:
    `sum += cat.vtable->speak(cat.data)` into a `long long` for every iteration, where
    `cat` is `{NULL, &CAT_VTABLE}`. Every call returns 1, so the sum counts the
    iterations; it cannot overflow.
  */
  method RunC(iterations: int32) returns (sum: int64)
    ensures sum == if iterations <= 0 then 0 else iterations
  {
    var cat := DynAnimal(Null, CAT_VTABLE);
    sum := 0;
    var i: int32 := 0;
    while i < iterations
      invariant 0 <= i && (iterations >= 0 ==> i <= iterations) && (iterations <= 0 ==> i == 0)
      invariant sum == i
    {
      sum := sum + cat.vtable.speak(cat.data);
      i := i + 1;
    }
  }

  // ---------------------------------------------------------------------------
  // Rust: `trait Animal { fn speak(&self) -> i32; }`, implemented by `Cat`
  // ---------------------------------------------------------------------------

  /** The unit struct `Cat`. */
  datatype Cat = Cat

  /** `<Cat as Animal>::speak`: returns 1. */
  function Speak(cat: Cat): (r: int32)
    ensures r == 1
  {
    1
  }

  /**
    A `Box<dyn Animal>`. `Cat` is the only type that implements `Animal`, so a boxed
    animal is a boxed cat.
  */
  datatype BoxDynAnimal = BoxedCat(cat: Cat)

  /** A call through the box's table: the `speak` of the boxed value's type. */
  function SpeakDyn(animal: BoxDynAnimal): (r: int32)
    ensures r == Speak(animal.cat) == 1
  {
    match animal
    case BoxedCat(cat) => Speak(cat)
  }

  /**
    Adding `x` to an `i32` that starts at 0, `k` times, as the benchmarks' `sum += ...`
    does: `None` once an addition leaves the range of `i32` (a panic when overflow
    checks are on, a wrap-around to a negative value when they are off).
  */
  function SumI32(k: nat, x: int32): Option<int32>
  {
    if k == 0 then Some(0)
    else
      match SumI32(k - 1, x)
      case None => None
      case Some(s) => if I32_MIN <= s + x <= I32_MAX then Some(s + x) else None
  }

  /** Adding 1 `k` times stays in range exactly while `k` fits in an `i32`. */
  lemma {:induction false} SumI32OfOnes(k: nat)
    ensures SumI32(k, 1) == if k <= I32_MAX then Some(k) else None
  {
    if k > 0 {
      SumI32OfOnes(k - 1);
    }
  }

  /**
    The `i32` sum of `bench_static` and `bench_dynamic` overflows on a `u32` iteration
    count: 2^31 iterations, which `iterations: u32` allows, cannot be counted.
  */
  lemma SumOverflowsAt2To31()
    ensures SumI32(I32_MAX, 1) == Some(I32_MAX)
    ensures SumI32(I32_MAX + 1, 1) == None
  {
    SumI32OfOnes(I32_MAX);
    SumI32OfOnes(I32_MAX + 1);
  }

  /**
    `bench_static(animal, iterations)` as written: `sum` is an `i32` (the type of
    `speak`'s result) and `sum += animal.speak()` runs `iterations` times. The result
    is `iterations` while that fits in an `i32`, and an overflow otherwise.
  */
  method BenchStatic(animal: Cat, iterations: uint32) returns (result: Option<int32>)
    ensures result == SumI32(iterations, Speak(animal))
    ensures result == if iterations <= I32_MAX then Some(iterations) else None
  {
    var sum: int32 := 0;
    for i := 0 to iterations
      invariant SumI32(i, 1) == Some(sum)
    {
      var s := Speak(animal);
      if sum + s > I32_MAX {
        SumI32OfOnes(i);
        SumI32OfOnes(iterations);
        return None;
      }
      sum := sum + s;
    }
    SumI32OfOnes(iterations);
    return Some(sum);
  }

  /**
    `bench_dynamic(animal, iterations)` as written: the same loop with every call going
    through the box, so the same result as `bench_static`.
  */
  method BenchDynamic(animal: BoxDynAnimal, iterations: uint32) returns (result: Option<int32>)
    ensures result == SumI32(iterations, SpeakDyn(animal))
    ensures result == if iterations <= I32_MAX then Some(iterations) else None
  {
    var sum: int32 := 0;
    for i := 0 to iterations
      invariant SumI32(i, 1) == Some(sum)
    {
      var s := SpeakDyn(animal);
      if sum + s > I32_MAX {
        SumI32OfOnes(i);
        SumI32OfOnes(iterations);
        return None;
      }
      sum := sum + s;
    }
    SumI32OfOnes(iterations);
    return Some(sum);
  }

  /**
    `bench_static` with the sum widened to `i64`: for every `u32` iteration count the
    sum counts the calls.
  */
  method BenchStaticWide(animal: Cat, iterations: uint32) returns (sum: int64)
    ensures sum == iterations
  {
    sum := 0;
    for i := 0 to iterations
      invariant sum == i
    {
      sum := sum + Speak(animal);
    }
  }

  /** `bench_dynamic` with the sum widened to `i64`: the same count as `BenchStaticWide`. */
  method BenchDynamicWide(animal: BoxDynAnimal, iterations: uint32) returns (sum: int64)
    ensures sum == iterations
  {
    sum := 0;
    for i := 0 to iterations
      invariant sum == i
    {
      sum := sum + SpeakDyn(animal);
    }
  }
}
