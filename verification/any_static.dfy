/**
  The downcast benchmark (examples/lifetime/any_static): a list of dynamically typed
  entries is built with entry `i` holding the 32-bit integer `i`, and then only the
  entries that are integers are added up. In C an entry is a tagged pointer (tag 0
  means `int`); in Rust it is a `Box<dyn Any>` and the check is `downcast_ref::<i32>`.
*/
module AnyStatic {
  import opened MachineInts
  import opened Wrappers

  // ---------------------------------------------------------------------------
  // C: `typedef struct { void *data; int tag; } Any;`
  // ---------------------------------------------------------------------------

  /**
    An entry of the C list. `data` stands for the `int` that the entry's pointer refers
    to; it is only read as an `int` when `tag` is 0.
  */
  datatype Any = Any(data: int32, tag: int32)

  /** The total of the entries whose tag is 0, added first to last. */
  function TaggedSum(list: seq<Any>): int
  {
    if list == [] then 0
    else
      var last := list[|list| - 1];
      TaggedSum(list[..|list| - 1]) + (if last.tag == 0 then last.data else 0)
  }

  /** The list the C build loop produces: entry `i` is `(i, tag 0)`. */
  function BuiltList(count: nat): (list: seq<Any>)
    requires count <= I32_MAX + 1
    ensures |list| == count
  {
    seq(count, i requires 0 <= i < count => Any(i, 0))
  }

  /** Each entry adds at most 2^31 in absolute value. */
  lemma {:induction false} TaggedSumBound(list: seq<Any>)
    ensures -|list| * 0x8000_0000 <= TaggedSum(list) <= |list| * 0x8000_0000
  {
    if list != [] {
      TaggedSumBound(list[..|list| - 1]);
    }
  }

  /** Summing a concatenation sums the parts. */
  lemma {:induction false} TaggedSumAppend(a: seq<Any>, b: seq<Any>)
    ensures TaggedSum(a + b) == TaggedSum(a) + TaggedSum(b)
    decreases |b|
  {
    if b != [] {
      var b' := b[..|b| - 1];
      assert (a + b)[..|a + b| - 1] == a + b';
      TaggedSumAppend(a, b');
    } else {
      assert a + b == a;
    }
  }

  /** An entry with a tag other than 0 contributes nothing, wherever it stands. */
  lemma OtherTagIgnored(list: seq<Any>, i: nat, e: Any)
    requires i <= |list| && e.tag != 0
    ensures TaggedSum(list[..i] + [e] + list[i..]) == TaggedSum(list)
  {
    TaggedSumAppend(list[..i] + [e], list[i..]);
    TaggedSumAppend(list[..i], [e]);
    assert TaggedSum([e]) == 0 by {
      assert [e][..0] == [];
    }
    TaggedSumAppend(list[..i], list[i..]);
    assert list[..i] + list[i..] == list;
  }

  /** The built list adds up to `0 + 1 + ... + (count - 1)`. */
  lemma {:induction false} BuiltListSum(count: nat)
    requires count <= I32_MAX + 1
    ensures 2 * TaggedSum(BuiltList(count)) == count * (count - 1)
  {
    if count > 0 {
      assert BuiltList(count)[..count - 1] == BuiltList(count - 1);
      BuiltListSum(count - 1);
      assert (count - 1) * (count - 2) + 2 * (count - 1) == count * (count - 1);
    }
  }

  /** The program's own instance: one million entries add up to 499999500000. */
  lemma MillionEntries()
    ensures TaggedSum(BuiltList(1000000)) == 499999500000
  {
    BuiltListSum(1000000);
  }

  /**
    `main` of the C program with `count` as a parameter: fill the list in place, then
    add up the tag-0 entries into a `long long`. The sum loop leaves the list as built,
    the `long long` never overflows, and the sum is `count * (count - 1) / 2`.
  */
  method RunC(count: int32) returns (sum: int64)
    requires 0 <= count
    ensures sum == count * (count - 1) / 2
  {
    var list := new Any[count];
    for i := 0 to count
      invariant forall k :: 0 <= k < i ==> list[k] == Any(k, 0)
    {
      list[i] := Any(i, 0);
    }
    assert list[..] == BuiltList(count);
    sum := 0;
    for i := 0 to count
      invariant list[..] == BuiltList(count)
      invariant sum == TaggedSum(list[..i])
    {
      assert list[..i + 1][..i] == list[..i];
      TaggedSumBound(list[..i + 1]);
      if list[i].tag == 0 {
        sum := sum + list[i].data;
      }
    }
    assert list[..count] == list[..];
    BuiltListSum(count);
  }

  // ---------------------------------------------------------------------------
  // Rust: `Vec<Box<dyn Any>>`
  // ---------------------------------------------------------------------------

  /** A `Box<dyn Any>`: a boxed `i32`, or a boxed value of some other type. */
  datatype DynAny = BoxedI32(value: int32) | BoxedOther

  /** `downcast_ref::<i32>()`: the integer when the box holds an `i32`, `None` otherwise. */
  function DowncastI32(item: DynAny): (r: Option<int32>)
    ensures r.Some? <==> item.BoxedI32?
  {
    match item
    case BoxedI32(v) => Some(v)
    case BoxedOther => None
  }

  /** The total of the entries that downcast to `i32`, added first to last. */
  function DowncastSum(vec: seq<DynAny>): int
  {
    if vec == [] then 0
    else
      var last := DowncastI32(vec[|vec| - 1]);
      DowncastSum(vec[..|vec| - 1]) + (if last.Some? then last.value else 0)
  }

  /** The C list that holds the same values: an `i32` becomes tag 0, anything else tag 1. */
  function AsTagged(vec: seq<DynAny>): (list: seq<Any>)
    ensures |list| == |vec|
  {
    seq(|vec|, i requires 0 <= i < |vec| =>
      match vec[i]
      case BoxedI32(v) => Any(v, 0)
      case BoxedOther => Any(0, 1))
  }

  /** The downcast filter of Rust adds up exactly what the tag filter of C adds up. */
  lemma {:induction false} DowncastSumIsTaggedSum(vec: seq<DynAny>)
    ensures DowncastSum(vec) == TaggedSum(AsTagged(vec))
  {
    if vec != [] {
      assert AsTagged(vec)[..|vec| - 1] == AsTagged(vec[..|vec| - 1]);
      DowncastSumIsTaggedSum(vec[..|vec| - 1]);
    }
  }

  /** Translating a concatenation translates the parts. */
  lemma AsTaggedAppend(a: seq<DynAny>, b: seq<DynAny>)
    ensures AsTagged(a + b) == AsTagged(a) + AsTagged(b)
  {
    var l, r := AsTagged(a + b), AsTagged(a) + AsTagged(b);
    forall k | 0 <= k < |l|
      ensures l[k] == r[k]
    {
      if k < |a| {
        assert (a + b)[k] == a[k];
      } else {
        assert (a + b)[k] == b[k - |a|];
      }
    }
  }

  /** An entry whose downcast fails is skipped, wherever it stands. */
  lemma FailedDowncastIgnored(vec: seq<DynAny>, i: nat)
    requires i <= |vec|
    ensures DowncastSum(vec[..i] + [BoxedOther] + vec[i..]) == DowncastSum(vec)
  {
    var longer := vec[..i] + [BoxedOther] + vec[i..];
    DowncastSumIsTaggedSum(longer);
    DowncastSumIsTaggedSum(vec);
    AsTaggedAppend(vec[..i] + [BoxedOther], vec[i..]);
    AsTaggedAppend(vec[..i], [BoxedOther]);
    AsTaggedAppend(vec[..i], vec[i..]);
    assert vec[..i] + vec[i..] == vec;
    assert AsTagged([BoxedOther]) == [Any(0, 1)];
    OtherTagIgnored(AsTagged(vec), i, Any(0, 1));
  }

  /** The vector the Rust build loop produces: entry `i` is a boxed `i as i32`. */
  function BuiltVec(count: nat): (vec: seq<DynAny>)
    requires count <= I32_MAX + 1
    ensures |vec| == count
  {
    seq(count, i requires 0 <= i < count => BoxedI32(i))
  }

  /** The built vector holds the same values as the C program's built list. */
  lemma BuiltVecAsTagged(count: nat)
    requires count <= I32_MAX + 1
    ensures AsTagged(BuiltVec(count)) == BuiltList(count)
  {
  }

  /**
    The push loop: `for i in 0..count { vec.push(Box::new(i as i32)) }`. Entry `i`
    holds `i`, in push order; an empty range pushes nothing.
  */
  method BuildVecRust(count: int32) returns (vec: seq<DynAny>)
    ensures vec == BuiltVec(if count <= 0 then 0 else count)
  {
    vec := [];
    var i: int32 := 0;
    while i < count
      invariant 0 <= i && (count >= 0 ==> i <= count) && (count <= 0 ==> i == 0)
      invariant vec == BuiltVec(i)
    {
      vec := vec + [BoxedI32(i)];
      i := i + 1;
    }
  }

  /**
    The sum loop: for every entry, `if let Some(val) = item.downcast_ref::<i32>()` add
    `*val as i64`. The vector comes from an `i32` range, so it has at most `i32::MAX`
    entries, and then the `i64` sum never overflows.
  */
  method SumDowncastsRust(vec: seq<DynAny>) returns (sum: int64)
    requires |vec| <= I32_MAX
    ensures sum == DowncastSum(vec)
  {
    sum := 0;
    for j := 0 to |vec|
      invariant sum == DowncastSum(vec[..j])
    {
      assert vec[..j + 1][..j] == vec[..j];
      DowncastSumIsTaggedSum(vec[..j + 1]);
      TaggedSumBound(AsTagged(vec[..j + 1]));
      var v := DowncastI32(vec[j]);
      if v.Some? {
        sum := sum + v.value;
      }
    }
    assert vec[..|vec|] == vec;
  }

  /**
    `main` of the Rust program with the range end as a parameter. Every downcast
    succeeds and the sum is `count * (count - 1) / 2` (0 for an empty range).
  */
  method RunRust(count: int32) returns (sum: int64)
    ensures sum == if count <= 0 then 0 else count * (count - 1) / 2
  {
    var vec := BuildVecRust(count);
    sum := SumDowncastsRust(vec);
    DowncastSumIsTaggedSum(vec);
    BuiltVecAsTagged(|vec|);
    BuiltListSum(|vec|);
  }
}
