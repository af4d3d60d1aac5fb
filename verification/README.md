# Checksums of the lifetime micro-benchmarks, in Dafny

The repository pairs C and Rust programs. Each pair measures what one language feature costs: a byte cursor, a downcast from a dynamically typed value, a write through a mutable borrow, a call through a function-pointer table, a read through a reference, and a lifetime-elided sub-slice. Each program sets up its data, runs a tight loop, and prints a checksum and a time. This project models the deterministic part of every program: the data set-up, the loop, and the checksum it produces. It then proves what that checksum is. Iteration counts and input sizes are parameters. The constants hard-coded in the programs appear only in lemmas, as instances that are checked.

Modules:

- `MachineInts` (machine_ints.dfy) holds the fixed-width integer types (`uint8`, `uint32`, `uint64`, `int32`, `int64`) and the wrapping addition and multiplication modulo 2^64.
  - C unsigned arithmetic and Rust's `wrapping_*` are written out modulo 2^64.
  - Signed overflow in C is undefined behaviour. A plain `+`/`+=` that overflows in Rust is an error. Variables of those kinds get a fixed-width subset type (signed or unsigned). The verifier then proves that they stay in range, except where a `requires` listed under "## Left out" rules the overflow out.
- `Wrappers` holds `Option`: C's NULL and Rust's `Option`.
- `Cells` holds `Ref<T>`: one memory slot behind a pointer or reference.
- `RepeatedSums` holds the exact total of `k` equal additions, and its closed form `k * x`.
- `SemanticsA`, `AnyStatic`, `GenericsT`, `BoxDynTrait`, `LifetimeA`, `RefTWithA` and `ElisionRules` each model one benchmark directory. Members ending in `C` model test.c and members ending in `Rust` model test.rs.

Every program exits with status 0, except that the C byte-cursor program returns 1 when `malloc` fails (examples/lifetime/semantics_a/test.c:35-37). `SemanticsA.RunC` models both exits.

## Model

| member | source | states |
|---|---|---|
| `SemanticsA.ByteIterC.constructor` | examples/lifetime/semantics_a/test.c:12-16 | `new_iter(data, len)` starts the cursor at `data` (offset 0) with `len` bytes to go; the bytes still to come are `data[..len]` |
| `SemanticsA.ByteIterC.Next` | examples/lifetime/semantics_a/test.c:20-30 | with `len == 0` it returns NULL and nothing changes; otherwise it returns a pointer to the byte at `remainder`, advances `remainder` by one and decreases `len` by one; `remainder + len` never changes (kept in `Valid()`) and the returned byte plus the new remainder is the old remainder |
| `SemanticsA.SumBytesC` | examples/lifetime/semantics_a/test.c:50-56 | the `while (1)` loop ends with `len == 0` after exactly `len` yields; the yielded bytes are the remaining buffer in order; the `unsigned long long` sum is their total modulo 2^64 |
| `SemanticsA.RunC` | examples/lifetime/semantics_a/test.c:32-66 | if `malloc` fails, `main` returns 1 and sums nothing; otherwise it fills the buffer with ones, drains the cursor, returns 0 and prints `data_size` |
| `SemanticsA.ByteSumOfOnes` | examples/lifetime/semantics_a/test.c:39-42 | a buffer of `n` ones adds up to `n` |
| `SemanticsA.FillOnes` | examples/lifetime/semantics_a/test.c:39-42 | every byte of the buffer becomes 1; `RunC` relies on it |
| `SemanticsA.ByteSumBound` | examples/lifetime/semantics_a/test.rs:35 | a byte total is at most 255 times the length |
| `SemanticsA.ShortSliceSumFits` | examples/lifetime/semantics_a/test.rs:35 | a slice of at most `u64::MAX / 255` bytes totals at most `u64::MAX`, so it meets `SumBytesRust`'s requirement whatever its bytes |
| `SemanticsA.HundredMillionOnes` | examples/lifetime/semantics_a/test.c:34-42 | the programs' instance: 100000000 ones add up to 100000000 |
| `SemanticsA.ByteIterRust.constructor` | examples/lifetime/semantics_a/test.rs:8-10 | `ByteIter::new` stores the slice unchanged |
| `SemanticsA.ByteIterRust.Next` | examples/lifetime/semantics_a/test.rs:13-21 | returns `None` exactly when the slice is empty, which then stays empty; otherwise returns `Some` of the first byte and drops that byte from the slice |
| `SemanticsA.SumBytesRust` | examples/lifetime/semantics_a/test.rs:34-36 | the `while let` loop empties the slice, yields exactly its bytes in order, and `sum` is their total; it requires that total to fit in a `u64` |
| `SemanticsA.RunRust` | examples/lifetime/semantics_a/test.rs:24-41 | the sum over `vec![1u8; n]` is `n` |
| `AnyStatic.BuiltList` | examples/lifetime/any_static/test.c:15-21 | the list the build loop produces has `count` entries, entry `i` being `(i, tag 0)` |
| `AnyStatic.TaggedSumBound` | examples/lifetime/any_static/test.c:24-31 | each entry moves the sum by at most 2^31, so a list that an `int` index can walk never overflows the `long long` sum |
| `AnyStatic.OtherTagIgnored` | examples/lifetime/any_static/test.c:27-30 | inserting an entry whose tag is not 0 anywhere in the list leaves the sum unchanged |
| `AnyStatic.BuiltListSum` | examples/lifetime/any_static/test.c:13-31 | the built list adds up to `count * (count - 1) / 2` |
| `AnyStatic.MillionEntries` | examples/lifetime/any_static/test.c:13 | the programs' instance: one million entries add up to 499999500000 |
| `AnyStatic.RunC` | examples/lifetime/any_static/test.c:11-37 | the sum `main` prints is `count * (count - 1) / 2` (that the list is filled in place, left unchanged while summing and that no partial sum overflows are loop invariants) |
| `AnyStatic.DowncastI32` | examples/lifetime/any_static/test.rs:12 | `downcast_ref::<i32>` succeeds exactly on boxes that hold an `i32` |
| `AnyStatic.DowncastSumIsTaggedSum` | examples/lifetime/any_static/test.rs:11-15 | Rust's downcast filter adds up exactly what C's tag-0 filter adds up on the corresponding tagged list |
| `AnyStatic.FailedDowncastIgnored` | examples/lifetime/any_static/test.rs:12-14 | inserting a box whose downcast fails anywhere in the vector leaves the sum unchanged |
| `AnyStatic.BuiltVec` | examples/lifetime/any_static/test.rs:5-7 | the vector the push loop produces has `count` entries, entry `i` a boxed `i32` equal to `i` |
| `AnyStatic.BuiltVecAsTagged` | examples/lifetime/any_static/test.rs:4-7 | the Rust vector holds the same values as the C list |
| `AnyStatic.BuildVecRust` | examples/lifetime/any_static/test.rs:4-7 | the push loop produces the built vector in push order; an empty range pushes nothing |
| `AnyStatic.SumDowncastsRust` | examples/lifetime/any_static/test.rs:10-15 | the sum loop adds every entry that downcasts, widened to `i64`, without overflow |
| `AnyStatic.RunRust` | examples/lifetime/any_static/test.rs:3-17 | `main` prints `count * (count - 1) / 2` (0 for an empty range) |
| `GenericsT.WrappingStepIsLcg` | examples/lifetime/generics_t/test.rs:30 | `wrapping_mul` then `wrapping_add` equals the C step `x * 6364136223846793005 + 1` modulo 2^64, so both languages step the same generator |
| `GenericsT.AccIsTotalMod` | examples/lifetime/generics_t/test.c:82-91 | the wrapping accumulator after `k` steps is the total of iterates 1 to `k` modulo 2^64 |
| `GenericsT.ProcessU64MutC` | examples/lifetime/generics_t/test.c:52-59 | writes one generator step into `*value` and returns the stored value |
| `GenericsT.BenchMutC` | examples/lifetime/generics_t/test.c:82-91 | starting from `x = 123456789` and `acc = 0`, the result is the total of iterates 1 to `n` modulo 2^64; 0 for `n == 0` |
| `GenericsT.ProcessU64MutRust` | examples/lifetime/generics_t/test.rs:28-32 | writes one generator step into `*x` and returns the stored value |
| `GenericsT.BenchMutRust` | examples/lifetime/generics_t/test.rs:53-61 | the same result as the C `bench_mut` for every `n` |
| `BoxDynTrait.RunC` | examples/lifetime/box_dyn_trait/test.c:17-28 | the `long long` sum equals the iteration count (100000000 in the program), or 0 for a non-positive bound; it relies on `CatSpeak` returning 1 |
| `BoxDynTrait.CatSpeak` | examples/lifetime/box_dyn_trait/test.c:14 | `cat_speak` returns 1 for any `self`, NULL included; `RunC`'s count depends on it |
| `BoxDynTrait.CatVTableDispatch` | examples/lifetime/box_dyn_trait/test.c:15 | `CAT_VTABLE`'s `speak` entry is `cat_speak`: a call through the table returns 1 for any data pointer, which is the call `RunC` makes |
| `BoxDynTrait.Speak` | examples/lifetime/box_dyn_trait/test.rs:13-15 | `Cat`'s `speak` returns 1; `BenchStatic` and `BenchStaticWide` count with it |
| `BoxDynTrait.SpeakDyn` | examples/lifetime/box_dyn_trait/test.rs:37 | a call through `Box<dyn Animal>` returns what the boxed value's own `speak` returns, so 1; `BenchDynamic` and `BenchDynamicWide` count with it |
| `BoxDynTrait.SumI32OfOnes` | examples/lifetime/box_dyn_trait/test.rs:22-26 | adding 1 to an `i32` `k` times gives `k` while `k <= i32::MAX` and overflows after that |
| `BoxDynTrait.SumOverflowsAt2To31` | examples/lifetime/box_dyn_trait/test.rs:20-26 | 2^31 - 1 calls still fit; 2^31 calls, which `iterations: u32` allows, overflow the `i32` sum |
| `BoxDynTrait.BenchStatic` | examples/lifetime/box_dyn_trait/test.rs:20-28 | as written: the sum equals `iterations` when that fits in an `i32` (so 100000000 in the program), and overflows otherwise |
| `BoxDynTrait.BenchDynamic` | examples/lifetime/box_dyn_trait/test.rs:32-40 | as written: through the box, the same result as `bench_static` |
| `BoxDynTrait.BenchStaticWide` | examples/lifetime/box_dyn_trait/test.rs:20-28 | with an `i64` sum, the sum equals `iterations` for every `u32` count |
| `BoxDynTrait.BenchDynamicWide` | examples/lifetime/box_dyn_trait/test.rs:32-40 | with an `i64` sum, dynamic dispatch counts the same as static dispatch |
| `LifetimeA.RunC` | examples/lifetime/lifetime_a/test.c:45-64 | after `n` iterations `acc` is `n` copies of `add(&v)`, that is `n * (v + 1)` modulo 2^64 (that `add` never writes `v` is a loop invariant) |
| `LifetimeA.AddC` | examples/lifetime/lifetime_a/test.c:45-49 | `add` returns the value read plus one, wrapping to 0 at `UINT64_MAX`; `RunC`'s total is built from it |
| `LifetimeA.AddRust` | examples/lifetime/lifetime_a/test.rs:5-7 | for a value below `u64::MAX`, `add` returns it plus one, the same as the C `add`; `RunRust`'s total is built from it |
| `LifetimeA.RunRust` | examples/lifetime/lifetime_a/test.rs:5-20 | with `v < u64::MAX` (so `*x + 1` cannot overflow), `acc` is `n * (v + 1)` modulo 2^64 |
| `LifetimeA.SixPointTwoBillion` | examples/lifetime/lifetime_a/test.c:53-64 | the programs' instance: 50000000 iterations with `v = 123` give 6200000000 |
| `RefTWithA.RunC` | examples/lifetime/ref_t_with_a/test.c:15-36 | when the final total fits in a `long long`, the sum is `iterations * val`, or 0 when the loop does not run (that `val` is never written and no partial sum overflows are loop invariants) |
| `RefTWithA.ProcessBoundC` | examples/lifetime/ref_t_with_a/test.c:10-13 | `process_bound` returns the `int` the wrapped pointer points to; `RunC` adds it up |
| `RefTWithA.AsRef` | examples/lifetime/ref_t_with_a/test.rs:10-14 | `as_ref` returns the wrapped reference itself, not a copy |
| `RefTWithA.ProcessBoundRust` | examples/lifetime/ref_t_with_a/test.rs:18-24 | `process_bound` through `as_ref` reads the same `i32` the C `process_bound` reads; `RunRust` adds it up |
| `RefTWithA.RunRust` | examples/lifetime/ref_t_with_a/test.rs:26-44 | the `i64` sum is `iterations * val`, or 0 when the loop does not run (that reading through `as_ref` gives `val` is a loop invariant, and that the sum over an `i32` range never overflows is proved in the body) |
| `RefTWithA.TenBillion` | examples/lifetime/ref_t_with_a/test.c:17-29 | the programs' instance: 1000000000 reads of 10 add up to 10000000000, which fits in a `long long` |
| `ElisionRules.GetMiddleC` | examples/lifetime/elision_rules/test.c:9-12 | the returned pointer `s + len / 4` lies inside the `len` characters at `s` |
| `ElisionRules.Memset` | examples/lifetime/elision_rules/test.c:18 | the first `n` characters become `c` and the rest stay |
| `ElisionRules.NewStringC` | examples/lifetime/elision_rules/test.c:16-19 | the string holds `len` `'a'`s followed by a NUL at index `len` |
| `ElisionRules.RunC` | examples/lifetime/elision_rules/test.c:14-38 | `dummy` holds `iterations` copies of `2 * (len / 4)` modulo 2^64 (that neither `size_t` operation of `(len / 4 * 3) - (len / 4)` wraps is proved in the body) |
| `ElisionRules.GetMiddleOffset` | examples/lifetime/elision_rules/test.rs:5-9 | `(len / 4) * 3 - len / 4` is `2 * (len / 4)`, at most half of `len`, and exactly half when 4 divides `len` (that it neither overflows nor underflows is proved in the body) |
| `ElisionRules.RepeatA` | examples/lifetime/elision_rules/test.rs:12-13 | `"a".repeat(n)` has length `n` |
| `ElisionRules.RunRust` | examples/lifetime/elision_rules/test.rs:11-26 | `dummy` holds `iterations` copies of `get_middle_offset(n)` modulo 2^64 |
| `ElisionRules.FiveHundredBillion` | examples/lifetime/elision_rules/test.rs:12-21 | the programs' instance: the offset for length 1000 is 500, and 1000000000 iterations give 500000000000 |

## Left out

- Timing is clock input and floating point, and is not modelled: `clock()`, `now_ns`, `now_seconds`, `Instant`, `QueryPerformanceCounter`, and the elapsed-time arithmetic.
- Printing is not modelled: `printf`, `println!`, and the locked stderr benchmark under examples/logging/eprintln, which only writes output.
- Optimisation barriers have no behaviour and are left out: `black_box` is the identity, and `volatile`, the inline `asm`, `COMPILER_BARRIER`, `NOINLINE` and `#[inline]` are dropped.
- In generics_t, `process_u64`, `process_u64_ref`, the generic `process`/`process_mut`, `bench_owned` and `bench_ref` return stack and variable addresses cast to integers. Their results are not deterministic, so they are left out, and so are the warm-up calls in `main`.
- Memory management is not modelled. `free` and the never-freed allocations of any_static/test.c are left out. Allocation in any_static and elision_rules is assumed to succeed. In semantics_a/test.c the outcome of `malloc` is a parameter of `RunC`.
- Pointers are offsets into the array they point into. In any_static/test.c, the `void *` of an entry is the `int` it points to, and the per-entry `malloc` is not modelled.
- `Box<dyn Any>` is a boxed `i32` or a boxed value of some other type. Type identifiers are not modelled.
- `Box<dyn Animal>` is modelled as a boxed `Cat`, because `Cat` is the only type that implements `Animal`.
- Lifetimes, the `T: 'a` bound and borrow checking only affect compilation, and have no model.
- The intentional error demonstrations are left out: ref_t_with_a/bad_ref.c reads a dangling pointer, and any_static/bad_any.rs and semantics_a/iter.rs do not compile.
- Rust overflow semantics: the model treats an overflowing plain `+` or `+=` as an error, which is what Rust does when overflow checks are on. Release builds wrap instead. The model proves that no such overflow happens, except where a `requires` listed below rules it out (`SemanticsA.SumBytesRust`, `LifetimeA.AddRust`, `LifetimeA.RunRust`, `AnyStatic.SumDowncastsRust`), and in the finding below.
- AnyStatic.RunC: requires `count >= 0`. With a negative `count`, the `malloc` size wraps, and that case is not modelled.
- AnyStatic.SumDowncastsRust: requires at most `i32::MAX` entries, which holds for the vector built from an `i32` range. A longer vector could overflow the `i64` sum.
- SemanticsA.SumBytesRust: requires the byte total to fit in a `u64`, because an overflowing `sum += ...` is an error.
- RefTWithA.RunC: requires `iterations * val` to fit in a `long long`, because signed overflow is undefined in C.
- LifetimeA.RunRust: requires `v < u64::MAX`, because `*x + 1` must not overflow.
- ElisionRules.RunC: requires `len < SIZE_MAX`, because `malloc(len + 1)` would otherwise ask for 0 bytes.
- ElisionRules.NewStringC: has the same requirement as `ElisionRules.RunC`, for the same reason.

## Findings

| source | as written | input that shows it | evidently intended | confidence | as-written member | corrected member |
|---|---|---|---|---|---|---|
| examples/lifetime/box_dyn_trait/test.rs:20-28 | `sum` is inferred as `i32` from `speak`'s return type, while `iterations` is a `u32`; `sum += ...` overflows once more than `i32::MAX` calls are made (lemma `BoxDynTrait.SumOverflowsAt2To31`) | `iterations = 2147483648` | the sum counts every call, for any `u32` count (an `i64` sum) | medium; not executed | `BoxDynTrait.BenchStatic` | `BoxDynTrait.BenchStaticWide` |
| examples/lifetime/box_dyn_trait/test.rs:32-40 | the same `i32` sum under a `u32` count in `bench_dynamic` | `iterations = 2147483648` | the sum counts every call, for any `u32` count (an `i64` sum) | medium; not executed | `BoxDynTrait.BenchDynamic` | `BoxDynTrait.BenchDynamicWide` |
