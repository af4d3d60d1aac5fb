/**
  The byte-cursor benchmark (examples/lifetime/semantics_a): a cursor over a byte buffer
  yields one byte per call until it is exhausted, and the driving loop adds up the
  yielded bytes. The C cursor is a pointer plus a remaining length; the Rust cursor
  is a slice that shrinks from the front.
*/
module SemanticsA {
  import opened MachineInts
  import opened Wrappers

  /** The exact total of a byte sequence, added up front to back. */
  function ByteSum(s: seq<uint8>): nat
  {
    if s == [] then 0 else s[0] + ByteSum(s[1..])
  }

  /** `n` bytes all equal to 1, the buffer both programs fill. */
  function Ones(n: nat): seq<uint8>
  {
    seq(n, _ => 1 as uint8)
  }

  /** A buffer of ones adds up to its length. */
  lemma {:induction false} ByteSumOfOnes(n: nat)
    ensures ByteSum(Ones(n)) == n
  {
    if n > 0 {
      assert Ones(n)[1..] == Ones(n - 1);
      ByteSumOfOnes(n - 1);
    }
  }

  /** Every byte is at most 255, so the total is at most 255 times the length. */
  lemma {:induction false} ByteSumBound(s: seq<uint8>)
    ensures ByteSum(s) <= 255 * |s|
  {
    if s != [] {
      ByteSumBound(s[1..]);
    }
  }

  /**
    A slice of at most `u64::MAX / 255` bytes totals at most `u64::MAX`, so the `u64`
    sum of the Rust loop cannot overflow on it, whatever its bytes.
  */
  lemma ShortSliceSumFits(s: seq<uint8>)
    requires |s| <= U64_MAX / 255
    ensures ByteSum(s) <= U64_MAX
  {
    ByteSumBound(s);
  }

  /** The programs' own instance: 100000000 bytes set to 1 add up to 100000000. */
  lemma HundredMillionOnes()
    ensures ByteSum(Ones(100000000)) == 100000000
  {
    ByteSumOfOnes(100000000);
  }

  // ---------------------------------------------------------------------------
  // C: `ByteIter { const unsigned char *remainder; size_t len; }`
  // ---------------------------------------------------------------------------

  /**
    The C cursor. `remainder` is a pointer into the buffer `data`, represented by its
    offset from the start of `data`. The ghost `end` is `remainder + len` at creation.
  */
  class ByteIterC {
    const data: array<uint8>
    var remainder: nat
    var len: nat
    ghost const end: nat

    /** `remainder + len` never moves, and stays inside the buffer. */
    ghost predicate Valid()
      reads this
    {
      remainder + len == end <= data.Length
    }

    /** The bytes the cursor has still to yield. */
    ghost function Remaining(): (r: seq<uint8>)
      reads this, data
      requires Valid()
      ensures |r| == len
    {
      data[remainder..end]
    }

    /** `new_iter(data, len)`: the cursor starts at `data` with `len` bytes to go. */
    constructor (data: array<uint8>, len: nat)
      requires len <= data.Length
      ensures Valid()
      ensures this.data == data && remainder == 0 && this.len == len
      ensures Remaining() == data[..len]
    {
      this.data := data;
      remainder := 0;
      this.len := len;
      end := len;
    }

    /**
      `next(self)`: NULL when nothing is left, and then nothing changes; otherwise a
      pointer to the byte at `remainder`, with `remainder` advanced and `len` decreased
      by one.
    */
    method Next() returns (byte: Option<nat>)
      requires Valid()
      modifies this
      ensures Valid()
      ensures remainder + len == old(remainder + len)
      ensures old(len) == 0 ==> byte == None && remainder == old(remainder) && len == old(len)
      ensures old(len) != 0 ==>
        && byte == Some(old(remainder))
        && remainder == old(remainder) + 1
        && len == old(len) - 1
      ensures byte.Some? ==> byte.value < data.Length && [data[byte.value]] + Remaining() == old(Remaining())
      ensures byte.None? ==> Remaining() == old(Remaining()) == []
    {
      if len == 0 {
        return None;
      }
      byte := Some(remainder);
      remainder := remainder + 1;
      len := len - 1;
    }
  }

  /**
    One step of the C sum loop: after yielding the first byte `x` of the remaining bytes
    `before`, the wrapping sum, the exact total and the yielded prefix still agree with
    the bytes that are left.
  */
  lemma SumStep(sum: uint64, exact: nat, x: uint8, yielded: seq<uint8>,
                before: seq<uint8>, rest: seq<uint8>, original: seq<uint8>)
    requires before == [x] + rest
    requires yielded + before == original
    requires exact + ByteSum(before) == ByteSum(original)
    requires sum == exact % U64_MODULUS
    ensures (yielded + [x]) + rest == original
    ensures (exact + x) + ByteSum(rest) == ByteSum(original)
    ensures WrappingAdd(sum, x) == (exact + x) % U64_MODULUS
  {
    assert before[1..] == rest;
    assert (yielded + [x]) + rest == yielded + before;
    WrappingAddTracks(sum, exact, x);
  }

  /**
    The `while (1)` loop of `main`: call `next` until it returns NULL, adding each byte
    to an `unsigned long long` sum (which wraps modulo 2^64). It yields exactly the
    remaining bytes, in order, so `len` of them.
  */
  method SumBytesC(iter: ByteIterC) returns (sum: uint64, ghost yielded: seq<uint8>)
    requires iter.Valid()
    modifies iter
    ensures iter.Valid() && iter.len == 0
    ensures yielded == old(iter.Remaining()) && |yielded| == old(iter.len)
    ensures sum == ByteSum(yielded) % U64_MODULUS
  {
    ghost var original := iter.Remaining();
    ghost var exact: nat := 0;
    sum, yielded := 0, [];
    while true
      invariant iter.Valid()
      invariant yielded + iter.Remaining() == original
      invariant exact + ByteSum(iter.Remaining()) == ByteSum(original)
      invariant sum == exact % U64_MODULUS
      decreases iter.len
    {
      ghost var before := iter.Remaining();
      var b := iter.Next();
      if b.None? {
        break;
      }
      var x := iter.data[b.value];
      SumStep(sum, exact, x, yielded, before, iter.Remaining(), original);
      sum := WrappingAdd(sum, x);
      exact := exact + x;
      yielded := yielded + [x];
    }
  }

  /** The fill loop of `main`: every byte of the buffer becomes 1. */
  method FillOnes(data: array<uint8>)
    modifies data
    ensures data[..] == Ones(data.Length)
  {
    for i := 0 to data.Length
      invariant forall k :: 0 <= k < i ==> data[k] == 1
    {
      data[i] := 1;
    }
  }

  /**
    `main` of the C program, with the buffer size as a parameter and the outcome of
    `malloc` as `mallocOk`. Without memory it returns 1 and sums nothing; otherwise
    it fills the buffer with ones, walks it with the cursor and prints the sum, which
    is the buffer size.
  */
  method RunC(dataSize: uint64, mallocOk: bool) returns (status: int, printed: Option<uint64>)
    ensures !mallocOk ==> status == 1 && printed == None
    ensures mallocOk ==> status == 0 && printed == Some(dataSize)
  {
    if !mallocOk {
      return 1, None;
    }
    var data := new uint8[dataSize];
    FillOnes(data);
    var iter := new ByteIterC(data, dataSize);
    assert iter.Remaining() == data[..dataSize] == Ones(dataSize);
    var sum;
    ghost var yielded;
    sum, yielded := SumBytesC(iter);
    assert yielded == Ones(dataSize);
    ByteSumOfOnes(dataSize);
    return 0, Some(sum);
  }

  // ---------------------------------------------------------------------------
  // Rust: `ByteIter<'remainder> { remainder: &'remainder [u8] }`
  // ---------------------------------------------------------------------------

  /** The Rust cursor: the slice still to be yielded. */
  class ByteIterRust {
    var remainder: seq<uint8>

    /** `ByteIter::new(remainder)` keeps the slice as given. */
    constructor (remainder: seq<uint8>)
      ensures this.remainder == remainder
    {
      this.remainder := remainder;
    }

    /**
      `next(&mut self)`: `None` exactly when the slice is empty, which stays empty;
      otherwise `Some` of its first byte, and the slice loses that byte. The Rust
      `next` returns `Option<&u8>`, a reference into the buffer; lifetimes are not
      modelled, so this returns the byte's value, where `ByteIterC.Next` returns the
      byte's offset (the C pointer).
    */
    method Next() returns (byte: Option<uint8>)
      modifies this
      ensures byte.None? <==> old(remainder) == []
      ensures byte.None? ==> remainder == []
      ensures byte.Some? ==> byte.value == old(remainder)[0] && remainder == old(remainder)[1..]
    {
      if remainder == [] {
        return None;
      }
      byte := Some(remainder[0]);
      remainder := remainder[1..];
    }
  }

  /**
    The `while let Some(b) = iter.next()` loop: `sum += *b as u64` for every byte, in
    order, until the slice is exhausted. A `u64` addition must not overflow, so the
    total of the slice must fit in a `u64`.
  */
  method SumBytesRust(iter: ByteIterRust) returns (sum: uint64, ghost yielded: seq<uint8>)
    requires ByteSum(iter.remainder) <= U64_MAX
    modifies iter
    ensures iter.remainder == []
    ensures yielded == old(iter.remainder)
    ensures sum == ByteSum(yielded)
  {
    ghost var original := iter.remainder;
    sum, yielded := 0, [];
    while true
      invariant yielded + iter.remainder == original
      invariant sum + ByteSum(iter.remainder) == ByteSum(original)
      decreases |iter.remainder|
    {
      var b := iter.Next();
      if b.None? {
        break;
      }
      sum := sum + b.value;
      yielded := yielded + [b.value];
    }
  }

  /**
    `main` of the Rust program with the vector length as a parameter: the sum of
    `vec![1u8; dataSize]` is `dataSize`.
  */
  method RunRust(dataSize: uint64) returns (sum: uint64)
    ensures sum == dataSize
  {
    var data := Ones(dataSize);
    var iter := new ByteIterRust(data);
    ByteSumOfOnes(dataSize);
    ghost var yielded;
    sum, yielded := SumBytesRust(iter);
  }
}
