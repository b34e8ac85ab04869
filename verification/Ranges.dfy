/** The three native range reads, compared with the default one. */
module Ranges {
  import opened Wrappers
  import opened ByteStrings
  import opened Streams

  /** Default `get_blob_range` over a body in any chunking. */
  function DefaultRange(items: seq<Item>, start: nat, end: nat): Result<seq<Item>> {
    if end < start then Err(PreconditionFailed) else Ok(Ranged(items, start, end - start))
  }

  /** Local `get_blob_range`: seek to the start, then read at most the length. */
  function LocalRange(file: Bytes, start: nat, end: nat): Result<Bytes> {
    if end < start then Err(PreconditionFailed)
    else
      var fromStart := if start <= |file| then file[start..] else [];
      Ok(fromStart[..Min(end - start, |fromStart|)])
  }

  /** A byte-range request with an inclusive last position (section 14.1.2 of RFC 9110); None when it cannot be satisfied. */
  function ServeBytes(content: Bytes, first: nat, last: nat): Option<Bytes>
    requires first <= last
  {
    if first >= |content| then None else Some(content[first..Min(last + 1, |content|)])
  }

  /** S3 `get_blob_range`: an empty range asks for nothing, others send first and last position. */
  function S3Range(content: Bytes, start: nat, end: nat): Result<Bytes> {
    if end < start then Err(PreconditionFailed)
    else if start == end then Ok([])
    else match ServeBytes(content, start, end - 1)
      case None => Err(Provider)
      case Some(bytes) => Ok(bytes)
  }

  /** Seek-and-take returns what the default returns for any chunking of the same body, errors included. */
  lemma LocalIsDefault(items: seq<Item>, start: nat, end: nat)
    requires !Breaks(items)
    ensures LocalRange(Readable(items), start, end) ==
            match DefaultRange(items, start, end)
            case Err(e) => Err(e)
            case Ok(out) => Collected(out)
  {
    if start <= end {
      RangedIsSlice(items, start, end - start);
      var file := Readable(items);
      assert LocalRange(file, start, end).value == Slice(file, start, end - start);
    }
  }

  /** S3 differs exactly on non-empty ranges that start at or past the end, which it reports as an error. */
  lemma S3IsLocalIff(content: Bytes, start: nat, end: nat)
    ensures S3Range(content, start, end) == LocalRange(content, start, end) <==> !(start < end && |content| <= start)
    ensures start < end && |content| <= start ==> S3Range(content, start, end).Err? && LocalRange(content, start, end) == Ok([])
  {
    if start < end && start < |content| {
      assert content[start..][..Min(end - start, |content| - start)] == content[start..Min(end, |content|)];
    }
  }

  /** Local and S3 give the requested length as size hint; it is the body's size exactly when the range does not reach past the end. */
  lemma RequestedHintExactIff(content: Bytes, start: nat, end: nat)
    requires start <= end
    ensures |LocalRange(content, start, end).value| == end - start <==> start == end || end <= |content|
  {
  }

  // ---- get_object_range ----

  datatype ObjectContentRange = ObjectContentRange(start: nat, end: nat, totalSize: nat) {
    predicate Valid() { start <= end <= totalSize }

    function Len(): nat
      requires Valid()
    {
      end - start
    }

    predicate IsEmpty() { start == end }
  }

  datatype ObjectRangeBody = ObjectRangeBody(range: ObjectContentRange, contentLength: nat, body: Bytes)

  /** Local `get_object_range`: the sidecar's size decides the range, the data file gives the bytes. */
  function GetObjectRange(sidecarSize: Option<nat>, data: Option<Bytes>, start: nat, end: nat): (r: Result<ObjectRangeBody>)
    ensures r.Ok? <==> start <= end && sidecarSize.Some? && data.Some? && start <= sidecarSize.value
    ensures r == Err(PreconditionFailed) <==> end < start || (sidecarSize.Some? && start > sidecarSize.value)
    ensures r.Err? ==> r.error in {PreconditionFailed, MissingBlob}
    ensures r.Ok? ==> r.value.range.end == Min(end, sidecarSize.value)
    ensures r.Ok? ==>
              var range := r.value.range;
              && range.Valid() && range.totalSize == sidecarSize.value && range.start == start && range.end <= end
              && r.value.contentLength == range.Len() && (range.IsEmpty() <==> r.value.contentLength == 0)
              && r.value.body == Slice(data.value, start, range.Len())
              && (|r.value.body| == r.value.contentLength <==> range.IsEmpty() || range.end <= |data.value|)
  {
    if end < start then Err(PreconditionFailed)
    else if sidecarSize.None? then Err(MissingBlob)
    else if start > sidecarSize.value then Err(PreconditionFailed)
    else
      var size := sidecarSize.value;
      var last := Min(end, size);
      var length := if last >= start then last - start else 0;
      if data.None? then Err(MissingBlob)
      else
        var fromStart := if start <= |data.value| then data.value[start..] else [];
        Ok(ObjectRangeBody(ObjectContentRange(start, last, size), length, fromStart[..Min(length, |fromStart|)]))
  }

  /** When sidecar and data agree on the size, the body has exactly `content_length` bytes and no requested byte is missing. */
  lemma AgreeingObjectRange(data: Bytes, start: nat, end: nat)
    requires start <= end && start <= |data|
    ensures var r := GetObjectRange(Some(|data|), Some(data), start, end);
            r.Ok? && |r.value.body| == r.value.contentLength && LocalRange(data, start, end) == Ok(r.value.body)
  {
  }
}
