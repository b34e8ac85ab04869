/** `get_object_range` among uploads and deletions: the sidecar is read at one moment, the data file opened at a later one. */
module ObjectStoreReads {
  import opened Wrappers
  import opened ByteStrings
  import opened Keys
  import opened TempNames
  import opened Streams
  import opened Ranges
  import opened KeyOrder
  import opened ObjectAgreement
  import opened ObjectListing
  import opened ObjectStore
  import opened ObjectStoreInvariant
  import opened ObjectStoreTheorems
  import opened ObjectStoreWitnesses

  function DataAt(files: Files, path: string): Option<Bytes> {
    if path in files && files[path].Data? then Some(files[path].bytes) else None
  }

  /**
    The range read that finds the sidecar in `earlier` and the data file in `later`. What is opened does not change
    any more: a data file in place is only replaced or removed.
   */
  function RangeAcross(earlier: Files, later: Files, bucket: string, key: string, start: nat, end: nat): Result<ObjectRangeBody>
    requires ObjectPath(bucket, key).Ok?
  {
    var sidecar, data := At(earlier, ObjectMetadataPath(bucket, key).value), DataAt(later, ObjectPath(bucket, key).value);
    match sidecar
    case None => GetObjectRange(None, data, start, end)
    case Some(Sidecar(info)) => GetObjectRange(Some(info.sizeBytes), data, start, end)
    case Some(_) => if end < start then Err(PreconditionFailed) else Err(Provider)
  }

  // ---- What leaves the data file alone ----

  /** The event puts another data file in the place of the object's, or removes it. */
  predicate Replaces(e: Event, calls: map<nat, Call>, id: (string, string)) {
    (e.PlaceData? || e.RemoveData?) && e.ok && e.c in calls && calls[e.c].Id() == id
  }

  lemma StepKeepsId(s: State, e: Event, c: nat, sha256: Bytes -> string)
    requires Enabled(s, e) && c in s.calls
    ensures c in Apply(s, e, sha256).calls && Apply(s, e, sha256).calls[c].Id() == s.calls[c].Id()
  {
  }

  lemma {:induction false} RunKeepsId(s: State, events: seq<Event>, t: State, c: nat, sha256: Bytes -> string)
    requires Run(s, events, t, sha256) && c in s.calls
    ensures c in t.calls && t.calls[c].Id() == s.calls[c].Id()
    decreases |events|
  {
    if events != [] {
      StepKeepsId(s, events[0], c, sha256);
      RunKeepsId(Apply(s, events[0], sha256), events[1..], t, c, sha256);
    }
  }

  /** The published files of another object, and any sidecar, lie elsewhere than an object's data. */
  lemma DataElsewhere(call: Call, bucket: string, key: string)
    requires WellPlaced(call) && bucket != INTERNAL_STORAGE_DIR && ObjectPath(bucket, key).Ok?
    ensures ObjectPath(bucket, key).value != call.SidecarPath()
    ensures call.Id() != (bucket, key) ==> ObjectPath(bucket, key).value != call.DataPath()
    ensures !IsUploading(ObjectPath(bucket, key).value) ==> ObjectPath(bucket, key).value !in call.Temps()
  {
    var (b, k) := call.Id();
    ObjectPathsInjective(b, k, bucket, key);
    DataMeetsSidecar(bucket, key, b, k);
  }

  /** What the publishing events touch. */
  lemma PublishingTouches(s: State, e: Event, path: string, sha256: Bytes -> string)
    requires Enabled(s, e) && Publishing(e) && path !in s.calls[e.c].Temps()
    requires if e.PlaceData? || e.RemoveData? then path != s.calls[e.c].DataPath() else path != s.calls[e.c].SidecarPath()
    ensures At(Apply(s, e, sha256).files, path) == At(s.files, path)
  {
  }

  lemma PublisherWellPlaced(s: State, e: Event, sha256: Bytes -> string)
    requires Inv(s, sha256) && Enabled(s, e) && Publishing(e)
    ensures WellPlaced(s.calls[e.c])
  {
    assert CallOk(s.files, s.calls[e.c], sha256);
  }

  lemma PublishingElsewhere(s: State, e: Event, bucket: string, key: string, sha256: Bytes -> string)
    requires Inv(s, sha256) && Enabled(s, e) && Publishing(e) && !Replaces(e, s.calls, (bucket, key))
    requires bucket != INTERNAL_STORAGE_DIR && ObjectPath(bucket, key).Ok? && !IsUploading(ObjectPath(bucket, key).value)
    ensures At(Apply(s, e, sha256).files, ObjectPath(bucket, key).value) == At(s.files, ObjectPath(bucket, key).value)
  {
    PublisherWellPlaced(s, e, sha256);
    DataElsewhere(s.calls[e.c], bucket, key);
    PublishingTouches(s, e, ObjectPath(bucket, key).value, sha256);
  }

  lemma StepKeepsData(s: State, e: Event, bucket: string, key: string, sha256: Bytes -> string)
    requires Inv(s, sha256) && Enabled(s, e) && !Replaces(e, s.calls, (bucket, key))
    requires bucket != INTERNAL_STORAGE_DIR && ObjectPath(bucket, key).Ok? && !IsUploading(ObjectPath(bucket, key).value)
    ensures At(Apply(s, e, sha256).files, ObjectPath(bucket, key).value) == At(s.files, ObjectPath(bucket, key).value)
  {
    if Publishing(e) {
      PublishingElsewhere(s, e, bucket, key, sha256);
    } else {
      QuietPublishesNothing(s, e, sha256);
    }
  }

  lemma {:induction false} RunKeepsData(s: State, events: seq<Event>, t: State, bucket: string, key: string, sha256: Bytes -> string)
    requires Inv(s, sha256) && Run(s, events, t, sha256)
    requires bucket != INTERNAL_STORAGE_DIR && ObjectPath(bucket, key).Ok? && !IsUploading(ObjectPath(bucket, key).value)
    requires forall i | 0 <= i < |events| :: !Replaces(events[i], t.calls, (bucket, key))
    ensures At(t.files, ObjectPath(bucket, key).value) == At(s.files, ObjectPath(bucket, key).value)
    decreases |events|
  {
    if events != [] {
      var e := events[0];
      var u := Apply(s, e, sha256);
      if Replaces(e, s.calls, (bucket, key)) {
        RunKeepsId(s, events, t, e.c, sha256);
      }
      StepKeepsData(s, e, bucket, key, sha256);
      StepOk(s, e, sha256);
      assert forall i | 0 <= i < |events[1..]| :: events[1..][i] == events[i + 1];
      RunKeepsData(u, events[1..], t, bucket, key, sha256);
    }
  }

  // ---- Reading ----

  /**
    A range read that finds the sidecar of an object shown outside the window has exactly the bytes it declares,
    cut from the one body that the sidecar describes, whatever runs before the data file is opened, as long as
    nothing puts another data file in its place or removes it.
   */
  lemma UndisturbedRangeIsExact(s: State, events: seq<Event>, t: State, bucket: string, key: string, start: nat, end: nat,
                                sha256: Bytes -> string)
    requires Reachable(s, sha256) && Run(s, events, t, sha256)
    requires bucket != INTERNAL_STORAGE_DIR && (bucket, key) !in s.window && Shown(s.files, bucket, key)
    requires forall i | 0 <= i < |events| :: !Replaces(events[i], t.calls, (bucket, key))
    requires var data := DataAt(s.files, ObjectPath(bucket, key).value); data.Some? ==> |data.value| <= U64_MAX
    ensures var data, r := DataAt(s.files, ObjectPath(bucket, key).value), RangeAcross(s.files, t.files, bucket, key, start, end);
            && data.Some? && (r.Ok? <==> start <= end && start <= |data.value|)
            && (r.Ok? ==> |r.value.body| == r.value.contentLength && r.value.body == Slice(data.value, start, end - start))
  {
    ReachableOk(s, sha256);
    RunKeepsData(s, events, t, bucket, key, sha256);
    if start <= end {
      ShownRangeIsExact(Snapshot(s.files, s.window), bucket, key, start, end, sha256);
    }
    ObjectsAgree(s, bucket, key, sha256);
  }

  /** A whole overwrite of an object that was alone in the store. */
  lemma Overwritten(p: Paths, q: Paths, before: Bytes, after: Bytes, sha256: Bytes -> string)
    returns (s: State, t: State, info: ObjectInfo)
    requires Rivals(p, q)
    ensures Onward(s, t, sha256) && (p.bucket, p.key) !in s.window && (p.bucket, p.key) !in t.window
    ensures At(s.files, p.data) == Some(Data(before)) && At(t.files, p.data) == Some(Data(after))
    ensures At(s.files, p.sidecar) == Some(Sidecar(info)) && InfoOf(info, p, before, sha256)
    ensures At(t.files, p.sidecar).Some? && At(t.files, p.sidecar).value.Sidecar?
  {
    s, info := Stored(p, before, sha256);
    SamePaths(p, q);
    OnlyOwn(s.files, p, q);
    var u := UploadOver(s, 1, q, info, after, sha256);
    t := Complete(u, 1, q, after, after, sha256);
    OnwardOn(s, u, t, sha256);
  }

  /** The range of the old size, read from the new body. */
  lemma StaleRange(before: Bytes, after: Bytes)
    ensures var r := GetObjectRange(Some(|before|), Some(after), 0, |before|);
            && r.Ok? && r.value.contentLength == |before| && r.value.body == after[..Min(|before|, |after|)]
            && (|r.value.body| == r.value.contentLength <==> |before| <= |after|)
            && (r.value.body == after <==> |after| <= |before|)
  {
  }

  /**
    An overwrite that is complete before the data file is opened: at both moments the object is shown and outside
    the window, so it agrees, yet the read of the whole object declares the old length and gives the new bytes up to
    it. It has the declared length exactly if the new body is not shorter, and is the new body exactly if that is not longer.
   */
  lemma OverwriteBetweenMisreads(p: Paths, q: Paths, before: Bytes, after: Bytes, sha256: Bytes -> string) returns (s: State, t: State)
    requires Rivals(p, q) && |before| <= U64_MAX
    ensures Onward(s, t, sha256)
    ensures Shown(s.files, p.bucket, p.key) && (p.bucket, p.key) !in s.window
    ensures Shown(t.files, p.bucket, p.key) && (p.bucket, p.key) !in t.window
    ensures DataAt(s.files, p.data) == Some(before) && DataAt(t.files, p.data) == Some(after)
    ensures var r := RangeAcross(s.files, t.files, p.bucket, p.key, 0, |before|);
            && r.Ok? && r.value.contentLength == |before| && r.value.body == after[..Min(|before|, |after|)]
            && (|r.value.body| == r.value.contentLength <==> |before| <= |after|)
            && (r.value.body == after <==> |after| <= |before|)
  {
    var info;
    s, t, info := Overwritten(p, q, before, after, sha256);
    StaleRange(before, after);
  }

  /** Key `k` of bucket `b`, one byte that becomes none, is read with a length of one and no byte at all. */
  lemma AnObjectIsMisread(sha256: Bytes -> string) returns (s: State, t: State)
    ensures Onward(s, t, sha256) && ObjectPath("b", "k").Ok? && ("b", "k") !in s.window && ("b", "k") !in t.window
    ensures var r := RangeAcross(s.files, t.files, "b", "k", 0, 1); r.Ok? && r.value.contentLength == 1 && r.value.body == []
  {
    var p, q := TwoWriters();
    s, t := OverwriteBetweenMisreads(p, q, [1], [], sha256);
  }

  // ---- Listing ----

  /** `ObjectListing.AgreeingListing` in a state of the machine: what is listed agrees with the data. */
  lemma ReachableListingAgrees(s: State, bucket: string, prefix: string, keys: seq<string>, listed: seq<ObjectInfo>,
                               sha256: Bytes -> string)
    requires Reachable(s, sha256) && bucket != INTERNAL_STORAGE_DIR && ValidBucket(bucket)
    requires ShownKeys(s.files, bucket, prefix, keys)
    requires forall k | k in keys :: (bucket, k) !in s.window && GetObjectMetadata(s.files, bucket, k).Ok?
    requires multiset(listed) == multiset(Infos(s.files, bucket, keys)) && InKeyOrder(listed)
    ensures forall i, j :: 0 <= i < j < |listed| ==> KeyLess(listed[i].key, listed[j].key)
    ensures forall k :: k in keys <==> exists info | info in listed :: info.key == k
    ensures forall info | info in listed ::
              bucket + "/" + info.key in s.files && Describes(info, bucket, info.key, s.files[bucket + "/" + info.key], sha256)
  {
    ReachableOk(s, sha256);
    AgreeingListing(s.files, s.window, bucket, prefix, keys, listed, sha256);
  }
}
