/**
  The lifetime-elision benchmark (examples/lifetime/elision_rules): a 1000-character
  string of 'a's is set up, and a loop repeatedly computes the middle part of it
  (from a quarter to three quarters of its length), adding that part's length into a
  wrapping 64-bit counter.
*/
module ElisionRules {
  import opened MachineInts
  import opened RepeatedSums

  // ---------------------------------------------------------------------------
  // C
  // ---------------------------------------------------------------------------

  /**
    `get_middle(s, len)`: the pointer `s + len / 4`, with pointers as offsets. It points
    into the `len` characters that start at `s`.
  */
  function GetMiddleC(s: nat, len: uint64): (r: nat)
    ensures s <= r <= s + len
    ensures len > 0 ==> r < s + len
  {
    s + len / 4
  }

  /** `memset(s, c, n)`: the first `n` characters become `c`, the rest stay. */
  method Memset(s: array<char>, c: char, n: nat)
    requires n <= s.Length
    modifies s
    ensures s[..n] == seq(n, _ => c)
    ensures s[n..] == old(s[n..])
  {
    for i := 0 to n
      invariant s[..i] == seq(i, _ => c)
      invariant s[i..] == old(s[i..])
    {
      s[i] := c;
    }
  }

  /**
    The set-up of `main`: `malloc(len + 1)`, `memset(s, 'a', len)`, `s[len] = '\0'`.
    `len + 1` is a `size_t` sum, so `len` must be below `SIZE_MAX` for it not to wrap.
  */
  method NewStringC(len: uint64) returns (s: array<char>)
    requires len < U64_MAX
    ensures fresh(s) && s.Length == len + 1
    ensures s[..len] == seq(len, _ => 'a') && s[len] == '\0'
  {
    s := new char[len + 1];
    Memset(s, 'a', len);
    s[len] := '\0';
  }

  /**
    `main` of the C program with `len` and the loop bound as parameters: every iteration
    takes `get_middle(s, len)`, which stays inside the string, and adds
    `(len / 4 * 3) - (len / 4)` into the `size_t` counter `dummy`. Neither `size_t`
    operation wraps, and the counter holds `iterations` copies of `2 * (len / 4)`,
    modulo 2^64.
  */
  method RunC(len: uint64, iterations: int32) returns (dummy: uint64)
    requires len < U64_MAX
    ensures dummy == RepeatedSum(if iterations <= 0 then 0 else iterations, 2 * (len / 4)) % U64_MODULUS
    ensures dummy == ((if iterations <= 0 then 0 else iterations) * (2 * (len / 4))) % U64_MODULUS
  {
    var s := NewStringC(len);
    dummy := 0;
    var i: int32 := 0;
    while i < iterations
      invariant 0 <= i && (iterations >= 0 ==> i <= iterations) && (iterations <= 0 ==> i == 0)
      invariant dummy == RepeatedSum(i, 2 * (len / 4)) % U64_MODULUS
    {
      var sub := GetMiddleC(0, len);
      assert sub < s.Length;
      var quarter: uint64 := len / 4;
      var threeQuarters: uint64 := quarter * 3;
      var span: uint64 := threeQuarters - quarter;
      WrappingStep(i, span);
      dummy := WrappingAdd(dummy, span);
      i := i + 1;
    }
    RepeatedSumIsProduct(i, 2 * (len / 4));
  }

  // ---------------------------------------------------------------------------
  // Rust
  // ---------------------------------------------------------------------------

  /**
    `get_middle_offset(len)`: `(len / 4) * 3 - len / 4` in `usize`. Neither the product
    nor the difference overflows, and the result is twice a quarter of `len`, so at
    most half of it.
  */
  function GetMiddleOffset(len: uint64): (r: uint64)
    ensures r == 2 * (len / 4) && r <= len / 2
    ensures len % 4 == 0 ==> r == len / 2
  {
    var start: uint64 := len / 4;
    var end: uint64 := (len / 4) * 3;
    end - start
  }

  /** `"a".repeat(n)`. */
  function RepeatA(n: nat): (s: string)
    ensures |s| == n
  {
    seq(n, _ => 'a')
  }

  /**
    `main` of the Rust program with the string length and the loop bound as
    parameters: `dummy = dummy.wrapping_add(get_middle_offset(s.len()) as u64)` on
    every iteration of the `i32` range `0..iterations`.
  */
  method RunRust(n: uint64, iterations: int32) returns (dummy: uint64)
    ensures dummy == RepeatedSum(if iterations <= 0 then 0 else iterations, GetMiddleOffset(n)) % U64_MODULUS
    ensures dummy == ((if iterations <= 0 then 0 else iterations) * GetMiddleOffset(n)) % U64_MODULUS
  {
    var s := RepeatA(n);
    var sLen := |s|;
    dummy := 0;
    var i: int32 := 0;
    while i < iterations
      invariant 0 <= i && (iterations >= 0 ==> i <= iterations) && (iterations <= 0 ==> i == 0)
      invariant dummy == RepeatedSum(i, GetMiddleOffset(n)) % U64_MODULUS
    {
      var offset := GetMiddleOffset(sLen);
      WrappingStep(i, offset);
      dummy := WrappingAdd(dummy, offset);
      i := i + 1;
    }
    RepeatedSumIsProduct(i, GetMiddleOffset(n));
  }

  /**
    The programs' own instance: for a 1000-character string the middle part is 500
    long, and 1000000000 iterations give 500000000000 in both languages.
  */
  lemma FiveHundredBillion()
    ensures GetMiddleOffset(1000) == 2 * (1000 / 4) == 500
    ensures RepeatedSum(1000000000, 500) % U64_MODULUS == 500000000000
  {
    RepeatedSumIsProduct(1000000000, 500);
  }
}
