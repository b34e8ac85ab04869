/** Bytes, chunked bodies, and the 64-bit counters kept over them. */
module ByteStrings {
  import opened Sequences

  newtype byte = x: int | 0 <= x < 0x100

  type Bytes = seq<byte>

  const U64_MAX := 0xFFFF_FFFF_FFFF_FFFF

  /** `u64::saturating_add`. */
  function SaturatingAdd(a: nat, b: nat): (c: nat)
    ensures c <= U64_MAX && (a + b <= U64_MAX ==> c == a + b)
  {
    if a + b <= U64_MAX then a + b else U64_MAX
  }

  /** A byte count as a saturating counter reports it. */
  function Counted(n: nat): nat {
    if n <= U64_MAX then n else U64_MAX
  }

  function Min(a: nat, b: nat): nat {
    if a <= b then a else b
  }

  /** The body a sequence of chunks carries. */
  function Flatten(chunks: seq<Bytes>): Bytes {
    if chunks == [] then [] else chunks[0] + Flatten(chunks[1..])
  }

  lemma {:induction false} FlattenConcat(a: seq<Bytes>, b: seq<Bytes>)
    ensures Flatten(a + b) == Flatten(a) + Flatten(b)
  {
    if a == [] {
      assert a + b == b;
    } else {
      FlattenConcat(a[1..], b);
      ConcatHead(a, b);
      ConcatAssociative(a[0], Flatten(a[1..]), Flatten(b));
    }
  }

  lemma FlattenOne(chunk: Bytes)
    ensures Flatten([chunk]) == chunk
  {
    assert [chunk][1..] == [];
  }
}
