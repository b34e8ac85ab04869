/** Byte streams as sequences of chunks, collecting them, and cutting a range out of one. */
module Streams {
  import opened Wrappers
  import opened Sequences
  import opened ByteStrings

  /** What polling a storage stream yields: a chunk, or the error that ends it. */
  datatype Item = Chunk(bytes: Bytes) | Broken

  /** What a successful write reports. */
  datatype WriteOutcome = WriteOutcome(sizeBytes: nat, sha256: string)

  /** The bytes a stream yields before its first error. */
  function Readable(items: seq<Item>): Bytes {
    if items == [] || items[0].Broken? then [] else items[0].bytes + Readable(items[1..])
  }

  predicate Breaks(items: seq<Item>) {
    exists i | 0 <= i < |items| :: items[i].Broken?
  }

  /** The result of `collect_storage_stream`. */
  function Collected(items: seq<Item>): Result<Bytes> {
    if Breaks(items) then Err(Io) else Ok(Readable(items))
  }

  lemma BreaksTail(items: seq<Item>)
    requires items != []
    ensures Breaks(items) <==> items[0].Broken? || Breaks(items[1..])
  {
    if Breaks(items[1..]) {
      var i :| 0 <= i < |items[1..]| && items[1..][i].Broken?;
      assert items[i + 1].Broken?;
    }
    if Breaks(items) && !items[0].Broken? {
      var i :| 0 <= i < |items| && items[i].Broken?;
      assert items[1..][i - 1].Broken?;
    }
  }

  lemma {:induction false} ReadableConcat(a: seq<Item>, b: seq<Item>)
    requires !Breaks(a)
    ensures Readable(a + b) == Readable(a) + Readable(b)
  {
    if a == [] {
      assert a + b == b;
    } else {
      BreaksTail(a);
      ReadableConcat(a[1..], b);
      ConcatHead(a, b);
      ConcatAssociative(a[0].bytes, Readable(a[1..]), Readable(b));
    }
  }

  lemma ReadableStep(items: seq<Item>, i: nat)
    requires i < |items| && items[i].Chunk? && !Breaks(items[..i])
    ensures !Breaks(items[..i + 1]) && Readable(items[..i + 1]) == Readable(items[..i]) + items[i].bytes
  {
    ReadableConcat(items[..i], [items[i]]);
    assert [items[i]][1..] == [];
    assert items[..i + 1] == items[..i] + [items[i]];
  }

  method CollectStorageStream(items: seq<Item>) returns (r: Result<Bytes>)
    ensures r == Collected(items)
  {
    var bytes: Bytes := [];
    var i := 0;
    while i < |items|
      invariant 0 <= i <= |items| && !Breaks(items[..i])
      invariant bytes == Readable(items[..i])
    {
      if items[i].Broken? {
        return Err(Io);
      }
      ReadableStep(items, i);
      bytes := bytes + items[i].bytes;
      i := i + 1;
    }
    assert items[..i] == items;
    return Ok(bytes);
  }

  /** Everything a range stream yields from this source, with so many bytes to skip and to keep. */
  function Ranged(items: seq<Item>, skip: nat, remaining: nat): seq<Item> {
    if remaining == 0 || items == [] then []
    else match items[0]
      case Broken => [Broken]
      case Chunk(b) =>
        if skip >= |b| then Ranged(items[1..], skip - |b|, remaining)
        else
          var take := Min(|b| - skip, remaining);
          [Chunk(b[skip..skip + take])] + Ranged(items[1..], 0, remaining - take)
  }

  /** The bytes of [skip, skip + length), clamped to the end of the body. */
  function Slice(body: Bytes, skip: nat, length: nat): Bytes {
    body[Min(skip, |body|)..Min(skip + length, |body|)]
  }

  /** `ranged_storage_stream`: the closure's state as fields, one poll per call. */
  class RangeStream {
    var inner: seq<Item>
    var skip: nat
    var remaining: nat
    var ended: bool

    constructor (items: seq<Item>, skip: nat, length: nat)
      ensures ToYield() == Ranged(items, skip, length)
    {
      this.inner, this.skip, this.remaining, this.ended := items, skip, length, false;
    }

    /** What the stream has still to yield. */
    ghost function ToYield(): seq<Item>
      reads this
    {
      if ended then [] else Ranged(inner, skip, remaining)
    }

    method Next() returns (r: Option<Item>)
      modifies this
      ensures r.None? ==> old(ToYield()) == [] && ToYield() == []
      ensures r.Some? ==> old(ToYield()) == [r.value] + ToYield()
    {
      if ended || remaining == 0 {
        ended := true;
        return None;
      }
      while inner != []
        invariant ToYield() == old(ToYield()) && !ended && remaining == old(remaining)
        decreases |inner|
      {
        var item := inner[0];
        inner := inner[1..];
        if item.Broken? {
          ended := true;
          return Some(Broken);
        }
        var chunkLen := |item.bytes|;
        if skip >= chunkLen {
          skip := skip - chunkLen;
          continue;
        }
        var take := Min(chunkLen - skip, remaining);
        var output := item.bytes[skip..skip + take];
        remaining := remaining - take;
        skip := 0;
        return Some(Chunk(output));
      }
      ended := true;
      return None;
    }
  }

  /** Polling a range stream to its end collects exactly what it was made to yield. */
  method CollectRange(items: seq<Item>, skip: nat, length: nat) returns (r: Result<Bytes>)
    ensures r == Collected(Ranged(items, skip, length))
  {
    var stream := new RangeStream(items, skip, length);
    var yielded: seq<Item> := [];
    ghost var all := stream.ToYield();
    while true
      invariant all == yielded + stream.ToYield()
      decreases |stream.ToYield()|
    {
      var next := stream.Next();
      if next.None? {
        break;
      }
      ConcatAssociative(yielded, [next.value], stream.ToYield());
      yielded := yielded + [next.value];
    }
    assert yielded == all;
    r := CollectStorageStream(yielded);
  }

  // ---- The range is the slice, for every chunking ----

  lemma SkipChunk(b: Bytes, rest: Bytes, skip: nat, length: nat)
    requires skip >= |b|
    ensures Slice(b + rest, skip, length) == Slice(rest, skip - |b|, length)
  {
  }

  lemma TakeChunk(b: Bytes, rest: Bytes, skip: nat, length: nat)
    requires skip < |b|
    ensures var take := Min(|b| - skip, length);
            Slice(b + rest, skip, length) == b[skip..skip + take] + Slice(rest, 0, length - take)
  {
  }

  /** The claim of `RangedIsSlice` for one source. */
  ghost predicate IsSlice(items: seq<Item>, skip: nat, length: nat) {
    var out, body := Ranged(items, skip, length), Readable(items);
    && Readable(out) == Slice(body, skip, length)
    && (Breaks(out) <==> Breaks(items) && length > 0 && |body| < skip + length)
    && forall i | 0 <= i < |out| :: out[i].Chunk? ==> out[i].bytes != []
  }

  lemma SkippedIsSlice(items: seq<Item>, skip: nat, length: nat)
    requires length > 0 && items != [] && items[0].Chunk? && skip >= |items[0].bytes|
    requires IsSlice(items[1..], skip - |items[0].bytes|, length)
    ensures IsSlice(items, skip, length)
  {
    BreaksTail(items);
    SkipChunk(items[0].bytes, Readable(items[1..]), skip, length);
  }

  lemma TakenIsSlice(items: seq<Item>, skip: nat, length: nat)
    requires length > 0 && items != [] && items[0].Chunk? && skip < |items[0].bytes|
    requires IsSlice(items[1..], 0, length - Min(|items[0].bytes| - skip, length))
    ensures IsSlice(items, skip, length)
  {
    var b, rest := items[0].bytes, items[1..];
    var take := Min(|b| - skip, length);
    var out, tail := Ranged(items, skip, length), Ranged(rest, 0, length - take);
    assert out[0] == Chunk(b[skip..skip + take]) && out[1..] == tail;
    TakeChunk(b, Readable(rest), skip, length);
    BreaksTail(items);
    BreaksTail(out);
    assert forall i | 1 <= i < |out| :: out[i] == tail[i - 1];
  }

  /**
    However the source is chunked, the range stream yields the clamped slice of the bytes before the
    source's error, in non-empty chunks, and yields that error exactly when it comes before the range
    is satisfied.
   */
  lemma {:induction false} RangedIsSlice(items: seq<Item>, skip: nat, length: nat)
    ensures var out, body := Ranged(items, skip, length), Readable(items);
            && Readable(out) == Slice(body, skip, length)
            && (Breaks(out) <==> Breaks(items) && length > 0 && |body| < skip + length)
            && (forall i | 0 <= i < |out| :: out[i].Chunk? ==> out[i].bytes != [])
  {
    if length > 0 && items != [] && items[0].Chunk? {
      if skip >= |items[0].bytes| {
        RangedIsSlice(items[1..], skip - |items[0].bytes|, length);
        SkippedIsSlice(items, skip, length);
      } else {
        RangedIsSlice(items[1..], 0, length - Min(|items[0].bytes| - skip, length));
        TakenIsSlice(items, skip, length);
      }
    } else if length > 0 && items != [] {
      assert items[0].Broken? && Ranged(items, skip, length)[0].Broken?;
    }
  }

  /** Two chunkings of one body give the same range. */
  lemma RangeIgnoresChunking(a: seq<Item>, b: seq<Item>, skip: nat, length: nat)
    requires Collected(a) == Collected(b) && !Breaks(a)
    ensures Collected(Ranged(a, skip, length)) == Collected(Ranged(b, skip, length)) == Ok(Slice(Readable(a), skip, length))
  {
    RangedIsSlice(a, skip, length);
    RangedIsSlice(b, skip, length);
  }

  /** The size hint of a range: `hint.saturating_sub(skip).min(length)`. */
  function RangeHint(hint: Option<nat>, skip: nat, length: nat): Option<nat> {
    match hint
    case None => None
    case Some(h) => Some(Min(if h >= skip then h - skip else 0, length))
  }

  /** A hint that is exact for the source is exact for the range. */
  lemma ExactHintStaysExact(items: seq<Item>, skip: nat, length: nat)
    requires !Breaks(items)
    ensures RangeHint(Some(|Readable(items)|), skip, length) == Some(|Readable(Ranged(items, skip, length))|)
  {
    RangedIsSlice(items, skip, length);
  }
}
