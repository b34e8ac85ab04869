/** Reachable states in which the object store gives less than its callers may expect. */
module ObjectStoreWitnesses {
  import opened Wrappers
  import opened Sequences
  import opened ByteStrings
  import opened Keys
  import opened TempNames
  import opened ObjectAgreement
  import opened ObjectStore

  // ---- Runs put together ----

  lemma {:induction false} RunConcat(s: State, a: seq<Event>, t: State, b: seq<Event>, u: State, sha256: Bytes -> string)
    requires Run(s, a, t, sha256) && Run(t, b, u, sha256)
    ensures Run(s, a + b, u, sha256)
    decreases |a|
  {
    if a == [] {
      assert a + b == b;
    } else {
      var next := Apply(s, a[0], sha256);
      RunConcat(next, a[1..], t, b, u, sha256);
      ConcatHead(a, b);
    }
  }

  /** Some run goes from s to t. */
  ghost predicate Leads(s: State, t: State, sha256: Bytes -> string) {
    exists events :: Run(s, events, t, sha256)
  }

  lemma LeadsOn(s: State, t: State, u: State, sha256: Bytes -> string)
    requires Leads(s, t, sha256) && Leads(t, u, sha256)
    ensures Leads(s, u, sha256)
  {
    var a :| Run(s, a, t, sha256);
    var b :| Run(t, b, u, sha256);
    RunConcat(s, a, t, b, u, sha256);
  }

  lemma ReachableOn(s: State, t: State, sha256: Bytes -> string)
    requires Reachable(s, sha256) && Leads(s, t, sha256)
    ensures Reachable(t, sha256)
  {
    var s0, events :| Init(s0, sha256) && Run(s0, events, s, sha256);
    LeadsOn(s0, s, t, sha256);
  }

  lemma OneStep(s: State, e: Event, sha256: Bytes -> string)
    requires Enabled(s, e)
    ensures Leads(s, Apply(s, e, sha256), sha256)
    ensures Reachable(s, sha256) ==> Reachable(Apply(s, e, sha256), sha256)
  {
    assert [e][1..] == [];
    assert Run(s, [e], Apply(s, e, sha256), sha256);
    if Reachable(s, sha256) {
      ReachableOn(s, Apply(s, e, sha256), sha256);
    }
  }

  /** A reachable state and one that it leads to. */
  ghost predicate Onward(s: State, t: State, sha256: Bytes -> string) {
    Reachable(s, sha256) && Leads(s, t, sha256) && Reachable(t, sha256)
  }

  lemma OnwardOn(s: State, t: State, u: State, sha256: Bytes -> string)
    requires Onward(s, t, sha256) && Onward(t, u, sha256)
    ensures Onward(s, u, sha256)
  {
    LeadsOn(s, t, u, sha256);
  }

  /** Nothing is in progress. */
  predicate Idle(s: State) {
    forall q | q in s.calls :: !s.calls[q].Live()
  }

  /** The calls of t are those of s and perhaps c. */
  predicate OnlyNew(s: State, t: State, c: nat) {
    forall d | d in t.calls :: d in s.calls || d == c
  }

  // ---- One upload, alone in the store ----

  /** c is an upload under p that has been given these bytes and has stored those; nothing else is in progress. */
  ghost predicate Alone(s: State, c: nat, p: Paths, hashed: Bytes, stored: Bytes) {
    && c in s.calls && (forall q | q in s.calls && q != c :: !s.calls[q].Live())
    && s.calls[c].Upload? && s.calls[c].paths == p && s.calls[c].hashed == hashed && (s.calls[c].failed <==> hashed != stored)
    && At(s.files, p.temp) == Some(Data(stored))
  }

  ghost predicate Begun(s: State, c: nat, p: Paths, hashed: Bytes, stored: Bytes) {
    Alone(s, c, p, hashed, stored) && s.calls[c].phase.Open?
  }

  /** Its sidecar is described too. */
  ghost predicate Ready(s: State, c: nat, p: Paths, hashed: Bytes, stored: Bytes, sha256: Bytes -> string) {
    && Alone(s, c, p, hashed, stored) && s.calls[c].phase.Described?
    && At(s.files, p.sidecarTemp) == Some(Sidecar(s.calls[c].Info(sha256)))
  }

  /** An upload under p can begin as call c, its temporary names being new. */
  ghost predicate CanBegin(s: State, c: nat, p: Paths, sha256: Bytes -> string) {
    && Reachable(s, sha256) && Idle(s) && c !in s.calls && p.Valid() && p.bucket != INTERNAL_STORAGE_DIR
    && p.temp !in s.files && p.sidecarTemp !in s.files
  }

  lemma BeginOne(s: State, c: nat, p: Paths, sha256: Bytes -> string) returns (t: State)
    requires CanBegin(s, c, p, sha256)
    ensures Onward(s, t, sha256) && Begun(t, c, p, [], []) && Only(s.files, t.files, p.Temps()) && OnlyNew(s, t, c) && t.window == s.window
  {
    var e := BeginUpload(c, p, None, map[], true);
    OneStep(s, e, sha256);
    t := Apply(s, e, sha256);
  }

  /** One chunk, of which a failing write takes the beginning only. */
  lemma ChunkOne(s: State, c: nat, p: Paths, bytes: Bytes, taken: nat, sha256: Bytes -> string) returns (t: State)
    requires Reachable(s, sha256) && Begun(s, c, p, [], []) && taken <= |bytes|
    ensures Onward(s, t, sha256) && Begun(t, c, p, bytes, bytes[..taken]) && Only(s.files, t.files, p.Temps())
    ensures t.calls.Keys == s.calls.Keys && t.window == s.window
  {
    var e := Chunk(c, bytes, taken, taken == |bytes|);
    OneStep(s, e, sha256);
    t := ApplyChunk(s, c, bytes, taken, taken == |bytes|);
    var none: Bytes := [];
    assert none + bytes == bytes && none + bytes[..taken] == bytes[..taken] && bytes[..|bytes|] == bytes;
  }

  lemma DescribeOne(s: State, c: nat, p: Paths, hashed: Bytes, stored: Bytes, sha256: Bytes -> string) returns (t: State)
    requires Reachable(s, sha256) && Begun(s, c, p, hashed, stored) && p.temp != p.sidecarTemp
    ensures Onward(s, t, sha256) && Ready(t, c, p, hashed, stored, sha256) && Only(s.files, t.files, p.Temps())
    ensures t.calls.Keys == s.calls.Keys && t.window == s.window
  {
    OneStep(s, Describe(c), sha256);
    t := Move(s, c, s.files[p.sidecarTemp := Sidecar(s.calls[c].Info(sha256))], Described);
  }

  /** An upload of one chunk, of which so much is stored, up to its sidecar. */
  lemma UploadOne(s: State, c: nat, p: Paths, bytes: Bytes, taken: nat, sha256: Bytes -> string) returns (t: State)
    requires CanBegin(s, c, p, sha256) && taken <= |bytes|
    ensures Onward(s, t, sha256) && Ready(t, c, p, bytes, bytes[..taken], sha256)
    ensures Only(s.files, t.files, p.Temps()) && OnlyNew(s, t, c) && t.window == s.window
  {
    var s1 := BeginOne(s, c, p, sha256);
    var s2 := ChunkOne(s1, c, p, bytes, taken, sha256);
    t := DescribeOne(s2, c, p, bytes, bytes[..taken], sha256);
    OnwardOn(s, s1, s2, sha256);
    OnwardOn(s, s2, t, sha256);
  }

  lemma PlaceOne(s: State, c: nat, p: Paths, hashed: Bytes, stored: Bytes, sha256: Bytes -> string) returns (t: State)
    requires Reachable(s, sha256) && Ready(s, c, p, hashed, stored, sha256) && p.Valid()
    ensures Onward(s, t, sha256) && t == ApplyPlaceData(s, c) && c in t.calls && t.calls[c] == s.calls[c].(phase := Placed, placed := true)
    ensures At(t.files, p.data) == Some(Data(stored)) && Only(s.files, t.files, {p.temp, p.data})
    ensures At(t.files, p.sidecarTemp) == Some(Sidecar(s.calls[c].Info(sha256))) && t.calls.Keys == s.calls.Keys
  {
    OneStep(s, PlaceData(c, true), sha256);
    t := ApplyPlaceData(s, c);
    MovedElsewhere(s.files, p.temp, p.data);
  }

  lemma SidecarOne(s: State, c: nat, p: Paths, hashed: Bytes, stored: Bytes, info: ObjectInfo, sha256: Bytes -> string)
    returns (t: State)
    requires Reachable(s, sha256) && InPhase(s, c, PlaceSidecar(c, true)) && s.calls[c].paths == p && p.Valid()
    requires s.calls[c].failed <==> hashed != stored
    requires At(s.files, p.data) == Some(Data(stored)) && At(s.files, p.sidecarTemp) == Some(Sidecar(info))
    ensures Onward(s, t, sha256) && t.calls == s.calls[c := s.calls[c].Goes(Ended(Succeeded))]
    ensures At(t.files, p.data) == Some(Data(stored)) && At(t.files, p.sidecar) == Some(Sidecar(info))
    ensures Only(s.files, t.files, {p.sidecarTemp, p.sidecar}) && (hashed == stored ==> s.calls[c].Id() !in t.window)
  {
    OneStep(s, PlaceSidecar(c, true), sha256);
    t := ApplyPlaceSidecar(s, c);
    MovedElsewhere(s.files, p.sidecarTemp, p.sidecar);
  }

  /** Both renames succeed. */
  lemma Complete(s: State, c: nat, p: Paths, hashed: Bytes, stored: Bytes, sha256: Bytes -> string) returns (t: State)
    requires Reachable(s, sha256) && Ready(s, c, p, hashed, stored, sha256) && p.Valid()
    ensures Onward(s, t, sha256) && Idle(t) && (forall d :: d in t.calls <==> d in s.calls)
    ensures t.calls[c].phase == Ended(Succeeded) && t.calls[c].Id() == s.calls[c].Id()
    ensures At(t.files, p.data) == Some(Data(stored)) && At(t.files, p.sidecar) == Some(Sidecar(s.calls[c].Info(sha256)))
    ensures Only(s.files, t.files, p.All()) && (hashed == stored ==> s.calls[c].Id() !in t.window)
  {
    var u := PlaceOne(s, c, p, hashed, stored, sha256);
    t := SidecarOne(u, c, p, hashed, stored, s.calls[c].Info(sha256), sha256);
    OnwardOn(s, u, t, sha256);
  }

  // ---- What a sidecar records ----

  /** What an upload of these bytes under p records of them. */
  ghost predicate InfoOf(info: ObjectInfo, p: Paths, bytes: Bytes, sha256: Bytes -> string) {
    info.bucket == p.bucket && info.key == p.key && info.sizeBytes == Counted(|bytes|) && info.sha256 == sha256(bytes)
  }

  /** An object shown whose sidecar was written for other bytes agrees exactly if those have the same size and hash. */
  lemma ShownAgreesIff(files: Files, p: Paths, stored: Bytes, info: ObjectInfo, recorded: Bytes, sha256: Bytes -> string)
    requires p.Valid() && !IsUploading(p.data) && InfoOf(info, p, recorded, sha256)
    requires At(files, p.data) == Some(Data(stored)) && At(files, p.sidecar) == Some(Sidecar(info))
    ensures Shown(files, p.bucket, p.key)
    ensures Agrees(files, p.bucket, p.key, sha256) <==> SameRecord(recorded, stored, sha256)
  {
    AgreesIff(files, p, stored, sha256);
  }

  lemma EmptyStore(sha256: Bytes -> string) returns (s: State)
    ensures Reachable(s, sha256) && s == State(map[], map[], {})
  {
    s := State(map[], map[], {});
    assert Init(s, sha256) && Run(s, [], s, sha256);
  }

  /**
    An upload completed in spite of a chunk of which only the beginning was written: a reachable state shows the
    object, and it agrees exactly if that beginning has the size and hash of the whole.
   */
  lemma FailedChunkCanDisagree(p: Paths, bytes: Bytes, taken: nat, sha256: Bytes -> string) returns (t: State)
    requires p.Valid() && p.bucket != INTERNAL_STORAGE_DIR && !IsUploading(p.data) && taken <= |bytes|
    ensures Reachable(t, sha256) && Shown(t.files, p.bucket, p.key)
    ensures Agrees(t.files, p.bucket, p.key, sha256) <==> SameRecord(bytes, bytes[..taken], sha256)
    ensures taken < |bytes| && taken < U64_MAX ==> !Agrees(t.files, p.bucket, p.key, sha256)
    ensures 0 in t.calls && t.calls[0].Id() == (p.bucket, p.key) && t.calls[0].phase == Ended(Succeeded)
  {
    var s := EmptyStore(sha256);
    var u := UploadOne(s, 0, p, bytes, taken, sha256);
    t := Complete(u, 0, p, bytes, bytes[..taken], sha256);
    ShownAgreesIff(t.files, p, bytes[..taken], u.calls[0].Info(sha256), bytes, sha256);
  }

  // ---- Between the two renames of an overwrite ----

  /** A store in which one upload of `bytes` under p has completed. */
  lemma Stored(p: Paths, bytes: Bytes, sha256: Bytes -> string) returns (t: State, info: ObjectInfo)
    requires p.Valid() && p.bucket != INTERNAL_STORAGE_DIR
    ensures Reachable(t, sha256) && Idle(t) && 1 !in t.calls && 2 !in t.calls && Only(map[], t.files, p.All())
    ensures At(t.files, p.data) == Some(Data(bytes)) && At(t.files, p.sidecar) == Some(Sidecar(info)) && InfoOf(info, p, bytes, sha256)
    ensures (p.bucket, p.key) !in t.window
  {
    var s := EmptyStore(sha256);
    assert bytes[..|bytes|] == bytes;
    var u := UploadOne(s, 0, p, bytes, |bytes|, sha256);
    t := Complete(u, 0, p, bytes, bytes, sha256);
    info := u.calls[0].Info(sha256);
  }

  lemma SidecarElsewhere(p: Paths)
    requires p.Valid()
    ensures p.sidecar !in p.Temps() && p.sidecar !in {p.temp, p.data}
  {
  }

  lemma KeptElsewhere(before: Files, after: Files, touched: set<string>, path: string)
    requires Only(before, after, touched) && path !in touched
    ensures At(after, path) == At(before, path)
  {
  }

  /** Two writers of one object with different temporary files. */
  ghost predicate Rivals(p: Paths, q: Paths) {
    && p.Valid() && q.Valid() && q.bucket == p.bucket && q.key == p.key && p.Temps() !! q.Temps()
    && p.bucket != INTERNAL_STORAGE_DIR && !IsUploading(p.data)
  }

  lemma SamePaths(p: Paths, q: Paths)
    requires Rivals(p, q)
    ensures q.data == p.data && q.sidecar == p.sidecar
  {
  }

  lemma OnlyOwn(files: Files, p: Paths, q: Paths)
    requires Rivals(p, q) && Only(map[], files, p.All())
    ensures q.temp !in files && q.sidecarTemp !in files
  {
    assert q.temp !in p.All() && q.sidecarTemp !in p.All();
    assert At(files, q.temp) == None && At(files, q.sidecarTemp) == None;
  }

  /** An upload of an object whose sidecar is there, up to its data rename. */
  lemma UploadOver(s: State, c: nat, q: Paths, info: ObjectInfo, after: Bytes, sha256: Bytes -> string) returns (u: State)
    requires CanBegin(s, c, q, sha256) && At(s.files, q.sidecar) == Some(Sidecar(info))
    ensures Onward(s, u, sha256) && Ready(u, c, q, after, after, sha256) && At(u.files, q.sidecar) == Some(Sidecar(info))
  {
    SidecarElsewhere(q);
    assert after[..|after|] == after;
    u := UploadOne(s, c, q, after, |after|, sha256);
    KeptElsewhere(s.files, u.files, q.Temps(), q.sidecar);
  }

  /** Then its data rename, which shows the new data with the sidecar that was there. */
  lemma PlaceOver(s: State, c: nat, q: Paths, info: ObjectInfo, before: Bytes, after: Bytes, sha256: Bytes -> string) returns (t: State)
    requires CanBegin(s, c, q, sha256) && !IsUploading(q.data)
    requires At(s.files, q.sidecar) == Some(Sidecar(info)) && InfoOf(info, q, before, sha256)
    ensures Reachable(t, sha256) && Shown(t.files, q.bucket, q.key)
    ensures Agrees(t.files, q.bucket, q.key, sha256) <==> SameRecord(before, after, sha256)
    ensures c in t.calls && t.calls[c].Id() == (q.bucket, q.key) && t.calls[c].phase.Placed?
  {
    var u := UploadOver(s, c, q, info, after, sha256);
    SidecarElsewhere(q);
    t := PlaceOne(u, c, q, after, after, sha256);
    KeptElsewhere(u.files, t.files, {q.temp, q.data}, q.sidecar);
    ShownAgreesIff(t.files, q, after, info, before, sha256);
  }

  /**
    Overwriting any object passes through a state in which it is shown with its new data and its old sidecar;
    it agrees there exactly if both bodies have one size and hash.
   */
  lemma OverwriteShowsOldSidecar(p: Paths, q: Paths, before: Bytes, after: Bytes, sha256: Bytes -> string) returns (t: State)
    requires Rivals(p, q)
    ensures Reachable(t, sha256) && Shown(t.files, p.bucket, p.key)
    ensures Agrees(t.files, p.bucket, p.key, sha256) <==> SameRecord(before, after, sha256)
    ensures 1 in t.calls && t.calls[1].Id() == (p.bucket, p.key) && t.calls[1].phase.Placed?
  {
    var s, info := Stored(p, before, sha256);
    SamePaths(p, q);
    OnlyOwn(s.files, p, q);
    t := PlaceOver(s, 1, q, info, before, after, sha256);
  }

  // ---- After a deletion that failed half-way ----

  lemma DeletionBegun(s: State, p: Paths, sha256: Bytes -> string) returns (t: State)
    requires Reachable(s, sha256) && Idle(s) && 1 !in s.calls && p.Valid() && p.bucket != INTERNAL_STORAGE_DIR
    ensures Reachable(t, sha256) && t.files == s.files && t.calls == s.calls[1 := Deletion(p.bucket, p.key, p.data, p.sidecar, DeletingData)]
  {
    var e := BeginDeletion(1, p.bucket, p.key);
    OneStep(s, e, sha256);
    t := Apply(s, e, sha256);
  }

  lemma DataRemoved(s: State, p: Paths, sha256: Bytes -> string) returns (t: State)
    requires Reachable(s, sha256) && 1 in s.calls && s.calls[1] == Deletion(p.bucket, p.key, p.data, p.sidecar, DeletingData)
    ensures Reachable(t, sha256) && t.files == s.files - {p.data}
    ensures t.calls == s.calls[1 := Deletion(p.bucket, p.key, p.data, p.sidecar, DeletingSidecar)]
  {
    OneStep(s, RemoveData(1, true), sha256);
    t := ApplyRemove(s, 1, p.data, DeletingSidecar);
  }

  lemma RemovalFailed(s: State, p: Paths, sha256: Bytes -> string) returns (t: State)
    requires Reachable(s, sha256) && 1 in s.calls && s.calls[1] == Deletion(p.bucket, p.key, p.data, p.sidecar, DeletingSidecar)
    ensures Reachable(t, sha256) && t.files == s.files
    ensures t.calls == s.calls[1 := Deletion(p.bucket, p.key, p.data, p.sidecar, Ended(Failed))]
  {
    OneStep(s, RemoveSidecar(1, false), sha256);
    t := Move(s, 1, s.files, Ended(Failed));
  }

  lemma OnlyDataRemoved(u: State, p: Paths, sha256: Bytes -> string) returns (t: State)
    requires Reachable(u, sha256) && 1 in u.calls && u.calls[1] == Deletion(p.bucket, p.key, p.data, p.sidecar, DeletingData)
    ensures Reachable(t, sha256) && t.files == u.files - {p.data}
    ensures t.calls == u.calls[1 := Deletion(p.bucket, p.key, p.data, p.sidecar, Ended(Failed))]
  {
    var v := DataRemoved(u, p, sha256);
    t := RemovalFailed(v, p, sha256);
  }

  /** A deletion whose second removal fails leaves the sidecar alone in the store. */
  lemma HalfDeleted(s: State, p: Paths, sha256: Bytes -> string) returns (t: State)
    requires Reachable(s, sha256) && Idle(s) && 1 !in s.calls && 2 !in s.calls && p.Valid() && p.bucket != INTERNAL_STORAGE_DIR
    ensures Reachable(t, sha256) && Idle(t) && 2 !in t.calls && t.files == s.files - {p.data}
    ensures 1 in t.calls && t.calls[1] == Deletion(p.bucket, p.key, p.data, p.sidecar, Ended(Failed))
  {
    var u := DeletionBegun(s, p, sha256);
    t := OnlyDataRemoved(u, p, sha256);
  }

  lemma NotShown(files: Files, p: Paths)
    requires p.Valid() && p.data !in files
    ensures !Shown(files, p.bucket, p.key)
  {
  }

  lemma SidecarLeft(p: Paths, before: Bytes, sha256: Bytes -> string) returns (s: State, info: ObjectInfo)
    requires p.Valid() && p.bucket != INTERNAL_STORAGE_DIR
    ensures Reachable(s, sha256) && Idle(s) && 2 !in s.calls && Only(map[], s.files, p.All()) && !Shown(s.files, p.bucket, p.key)
    ensures At(s.files, p.sidecar) == Some(Sidecar(info)) && InfoOf(info, p, before, sha256)
  {
    var s0;
    s0, info := Stored(p, before, sha256);
    s := HalfDeleted(s0, p, sha256);
    SidecarElsewhere(p);
    NotShown(s.files, p);
  }

  /**
    After a deletion that failed half-way nothing is shown; the next upload then passes through a state in which
    its data is shown with the sidecar of the deleted object, and agrees exactly if both have one size and hash.
   */
  lemma HalfDeletionShowsOldSidecar(p: Paths, q: Paths, before: Bytes, after: Bytes, sha256: Bytes -> string) returns (s: State, t: State)
    requires Rivals(p, q)
    ensures Reachable(s, sha256) && Idle(s) && !Shown(s.files, p.bucket, p.key)
    ensures Reachable(t, sha256) && Shown(t.files, p.bucket, p.key)
    ensures Agrees(t.files, p.bucket, p.key, sha256) <==> SameRecord(before, after, sha256)
  {
    var info;
    s, info := SidecarLeft(p, before, sha256);
    SamePaths(p, q);
    OnlyOwn(s.files, p, q);
    t := PlaceOver(s, 2, q, info, before, after, sha256);
  }

  // ---- One object ----

  lemma PlainPaths(u: Uuid, v: Uuid) returns (p: Paths)
    ensures PathsOf("b", "k", u, v) == Some(p) && p.Valid() && p.bucket == "b" && p.key == "k" && !IsUploading(p.data)
  {
    ValidSingle("b");
    ValidSingle("k");
    p := PathsOf("b", "k", u, v).value;
    WriterPaths("b", "k", u, v);
    UploadingIsSuffix(p.data);
  }

  lemma TempsDiffer(path: string, u: Uuid, other: string, v: Uuid)
    requires path != other || u != v
    ensures LocalTempPath(path, u) != LocalTempPath(other, v)
  {
    if LocalTempPath(path, u) == LocalTempPath(other, v) {
      LocalTempInjective(path, u, other, v);
    }
  }

  lemma FourApart(a: string, b: string, c: string, d: string)
    requires a != c && a != d && b != c && b != d
    ensures {a, b} !! {c, d}
  {
  }

  /** Two writers of one object with different UUIDs have no temporary file in common. */
  lemma TempsApart(data: string, sidecar: string, u: Uuid, v: Uuid, x: Uuid, y: Uuid)
    requires data != sidecar && u != x && v != y
    ensures {LocalTempPath(data, u), LocalTempPath(sidecar, v)} !! {LocalTempPath(data, x), LocalTempPath(sidecar, y)}
  {
    TempsDiffer(data, u, data, x);
    TempsDiffer(data, u, sidecar, y);
    TempsDiffer(sidecar, v, data, x);
    TempsDiffer(sidecar, v, sidecar, y);
    FourApart(LocalTempPath(data, u), LocalTempPath(sidecar, v), LocalTempPath(data, x), LocalTempPath(sidecar, y));
  }

  /** Two writers of key `k` in bucket `b`. */
  lemma TwoWriters() returns (p: Paths, q: Paths)
    ensures Rivals(p, q) && p.bucket == "b" && p.key == "k"
  {
    var u: Uuid, x: Uuid := seq(32, i => 0), seq(32, i => 1);
    assert u[0] != x[0];
    p := PlainPaths(u, u);
    q := PlainPaths(x, x);
    TempsApart(p.data, p.sidecar, u, u, x, x);
  }

  /** Key `k` of bucket `b`, overwritten by one byte when it was empty, is such an object, whatever the hash. */
  lemma AnObjectDisagrees(sha256: Bytes -> string) returns (t: State)
    ensures Reachable(t, sha256) && Shown(t.files, "b", "k") && !Agrees(t.files, "b", "k", sha256)
  {
    var p, q := TwoWriters();
    t := OverwriteShowsOldSidecar(p, q, [], [1], sha256);
  }
}
