/** Local objects as two files, a data file and a JSON sidecar, and what it means for them to agree. */
module ObjectAgreement {
  import opened Wrappers
  import opened ByteStrings
  import opened Keys
  import opened TempNames
  import opened Ranges
  import opened Streams

  datatype ObjectInfo = ObjectInfo(bucket: string, key: string, contentType: Option<string>, metadata: map<string, string>,
                                   sizeBytes: nat, sha256: string, etag: Option<string>)

  /** What a file holds; `Partial` is a sidecar whose write was cut short. */
  datatype Content = Data(bytes: Bytes) | Sidecar(info: ObjectInfo) | Partial

  type Files = map<string, Content>

  function At(files: Files, path: string): Option<Content> {
    if path in files then Some(files[path]) else None
  }

  /** The two states agree on every path outside the set. */
  ghost predicate Only(a: Files, b: Files, paths: set<string>) {
    forall p | p !in paths :: At(a, p) == At(b, p)
  }

  /** The files after a rename. */
  function Moved(files: Files, from: string, to: string): Files
    requires from in files
  {
    (files - {from})[to := files[from]]
  }

  /** A rename changes its two paths only. */
  lemma MovedElsewhere(files: Files, from: string, to: string)
    requires from in files
    ensures forall path | path != to && path != from :: At(Moved(files, from, to), path) == At(files, path)
  {
  }

  /** The paths of one writer. */
  datatype Paths = Paths(bucket: string, key: string, data: string, sidecar: string, temp: string, sidecarTemp: string) {
    ghost predicate Valid() {
      && ObjectPath(bucket, key) == Ok(data) && ObjectMetadataPath(bucket, key) == Ok(sidecar)
      && IsUploading(temp) && IsUploading(sidecarTemp) && !IsUploading(sidecar)
      && data != sidecar && data != temp && data != sidecarTemp && temp != sidecarTemp
    }

    /** The four paths are different files. */
    predicate Distinct() {
      && data != sidecar && data != temp && data != sidecarTemp
      && sidecar != temp && sidecar != sidecarTemp && temp != sidecarTemp
    }

    function Temps(): set<string> { {temp, sidecarTemp} }

    function All(): set<string> { {data, sidecar, temp, sidecarTemp} }
  }

  lemma ValidIsDistinct(p: Paths)
    requires p.Valid()
    ensures p.Distinct()
  {
  }

  /** The sidecar of an object with this body. */
  function InfoFor(p: Paths, contentType: Option<string>, metadata: map<string, string>, body: Bytes, sha256: Bytes -> string): ObjectInfo {
    ObjectInfo(p.bucket, p.key, contentType, metadata, Counted(|body|), sha256(body), Some(sha256(body)))
  }

  /** The paths `create_multipart_object` makes from bucket, key and two new UUIDs; None when they are refused. */
  function PathsOf(bucket: string, key: string, u: Uuid, v: Uuid): Option<Paths> {
    var data, sidecar := ObjectPath(bucket, key), ObjectMetadataPath(bucket, key);
    if data.Err? || sidecar.Err? then None
    else Some(Paths(bucket, key, data.value, sidecar.value, LocalTempPath(data.value, u), LocalTempPath(sidecar.value, v)))
  }

  /** `list_objects` shows a data file that is not taken for a temporary one and whose sidecar parses. */
  predicate Shown(files: Files, bucket: string, key: string) {
    && ObjectPath(bucket, key).Ok?
    && ObjectPath(bucket, key).value in files && !IsUploading(ObjectPath(bucket, key).value)
    && ObjectMetadataPath(bucket, key).value in files && files[ObjectMetadataPath(bucket, key).value].Sidecar?
  }

  ghost predicate Describes(info: ObjectInfo, bucket: string, key: string, content: Content, sha256: Bytes -> string) {
    && content.Data? && info.bucket == bucket && info.key == key
    && info.sizeBytes == Counted(|content.bytes|) && info.sha256 == sha256(content.bytes)
  }

  ghost predicate Agrees(files: Files, bucket: string, key: string, sha256: Bytes -> string) {
    Shown(files, bucket, key) ==>
      Describes(files[ObjectMetadataPath(bucket, key).value].info, bucket, key, files[ObjectPath(bucket, key).value], sha256)
  }

  /** The two bodies have the same size, as far as it is counted, and the same hash. */
  ghost predicate SameRecord(a: Bytes, b: Bytes, sha256: Bytes -> string) {
    Counted(|a|) == Counted(|b|) && sha256(a) == sha256(b)
  }

  /** The sidecar, if there is a complete one, is of this object and records the size and hash of these bytes. */
  ghost predicate Recorded(files: Files, p: Paths, stored: Bytes, sha256: Bytes -> string) {
    p.sidecar in files && files[p.sidecar].Sidecar? ==> Describes(files[p.sidecar].info, p.bucket, p.key, Data(stored), sha256)
  }

  /** An object whose data is in place agrees exactly if it is hidden or what its sidecar records is that data. */
  lemma AgreesIff(files: Files, p: Paths, stored: Bytes, sha256: Bytes -> string)
    requires p.Valid() && At(files, p.data) == Some(Data(stored))
    ensures Agrees(files, p.bucket, p.key, sha256) <==> IsUploading(p.data) || Recorded(files, p, stored, sha256)
  {
  }

  /** The files at one moment, and the objects then between the two renames of an overwrite. */
  datatype Snapshot = Snapshot(files: Files, window: set<(string, string)>)

  /** Outside the internal directory and outside the window, every object shown agrees with its sidecar. */
  ghost predicate Consistent(s: Snapshot, sha256: Bytes -> string) {
    forall b, k | b != INTERNAL_STORAGE_DIR && (b, k) !in s.window :: Agrees(s.files, b, k, sha256)
  }

  lemma EndsWithLast(s: string, suffix: string)
    requires suffix != "" && EndsWith(s, suffix)
    ensures s != "" && s[|s| - 1] == suffix[|suffix| - 1]
  {
    assert s[|s| - |suffix|..][|suffix| - 1] == s[|s| - 1];
  }

  lemma SidecarIsNotTemp(bucket: string, key: string)
    requires ObjectMetadataPath(bucket, key).Ok?
    ensures !IsUploading(ObjectMetadataPath(bucket, key).value)
  {
    var path := ObjectMetadataPath(bucket, key).value;
    UploadingIsSuffix(path);
    assert path[|path| - 1] == METADATA_SUFFIX[|METADATA_SUFFIX| - 1];
    if EndsWith(path, TEMP_SUFFIX) {
      EndsWithLast(path, TEMP_SUFFIX);
    }
  }

  /** The two states differ in temporary files only. */
  ghost predicate SamePublished(a: Files, b: Files) {
    forall path | !IsUploading(path) :: At(a, path) == At(b, path)
  }

  lemma HiddenStep(before: Files, after: Files, window: set<(string, string)>, sha256: Bytes -> string)
    requires SamePublished(before, after) && Consistent(Snapshot(before, window), sha256)
    ensures Consistent(Snapshot(after, window), sha256)
  {
    forall b, k | b != INTERNAL_STORAGE_DIR && (b, k) !in window
      ensures Agrees(after, b, k, sha256)
    {
      assert Agrees(before, b, k, sha256);
      if Shown(after, b, k) {
        SidecarIsNotTemp(b, k);
        var data, sidecar := ObjectPath(b, k).value, ObjectMetadataPath(b, k).value;
        assert At(before, data) == At(after, data) && At(before, sidecar) == At(after, sidecar);
      }
    }
  }

  /** The two states differ in temporary files and in the two files of one object only. */
  ghost predicate SameButObject(before: Files, after: Files, data: string, sidecar: string) {
    forall path | !IsUploading(path) && path != data && path != sidecar :: At(before, path) == At(after, path)
  }

  /** Whatever happens to the files of one object, no other object is put out of agreement. */
  lemma ObjectStep(before: Files, after: Files, window: set<(string, string)>, bucket: string, key: string, sha256: Bytes -> string)
    requires ObjectPath(bucket, key).Ok? && bucket != INTERNAL_STORAGE_DIR
    requires SameButObject(before, after, ObjectPath(bucket, key).value, ObjectMetadataPath(bucket, key).value)
    requires Consistent(Snapshot(before, window), sha256)
    ensures Consistent(Snapshot(after, window + {(bucket, key)}), sha256)
  {
    forall b, k | b != INTERNAL_STORAGE_DIR && (b, k) !in window + {(bucket, key)}
      ensures Agrees(after, b, k, sha256)
    {
      assert Agrees(before, b, k, sha256);
      if Shown(after, b, k) {
        SidecarIsNotTemp(b, k);
        ObjectPathsInjective(b, k, bucket, key);
        DataMeetsSidecar(b, k, bucket, key);
        DataMeetsSidecar(bucket, key, b, k);
        var data, sidecar := ObjectPath(b, k).value, ObjectMetadataPath(b, k).value;
        assert At(before, data) == At(after, data) && At(before, sidecar) == At(after, sidecar);
      }
    }
  }

  lemma CloseWindow(files: Files, window: set<(string, string)>, bucket: string, key: string, sha256: Bytes -> string)
    requires Consistent(Snapshot(files, window + {(bucket, key)}), sha256) && Agrees(files, bucket, key, sha256)
    ensures Consistent(Snapshot(files, window), sha256) && Consistent(Snapshot(files, window - {(bucket, key)}), sha256)
  {
    forall b, k | b != INTERNAL_STORAGE_DIR && (b, k) !in window - {(bucket, key)}
      ensures Agrees(files, b, k, sha256)
    {
      if (b, k) != (bucket, key) {
        assert (b, k) !in window + {(bucket, key)};
      }
    }
  }

  lemma SidecarLonger(bucket: string, key: string)
    requires ObjectPath(bucket, key).Ok?
    ensures |ObjectMetadataPath(bucket, key).value| > |ObjectPath(bucket, key).value|
  {
  }

  lemma TempLonger(path: string, u: Uuid)
    ensures |LocalTempPath(path, u)| > |path|
  {
  }

  /** The four paths of a writer are distinct, and its temporary ones look temporary. */
  lemma WriterPaths(bucket: string, key: string, u: Uuid, v: Uuid)
    requires PathsOf(bucket, key, u, v).Some?
    ensures PathsOf(bucket, key, u, v).value.Valid()
  {
    var data, sidecar := ObjectPath(bucket, key).value, ObjectMetadataPath(bucket, key).value;
    LocalTempUploading(data, u);
    LocalTempUploading(sidecar, v);
    SidecarIsNotTemp(bucket, key);
    SidecarLonger(bucket, key);
    TempLonger(data, u);
    TempLonger(sidecar, v);
    if LocalTempPath(data, u) == LocalTempPath(sidecar, v) {
      LocalTempInjective(data, u, sidecar, v);
    }
  }

  /** At one moment outside the window, a range of a shown object has exactly the bytes it declares, cut from the data at the sidecar's size. */
  lemma ShownRangeIsExact(s: Snapshot, bucket: string, key: string, start: nat, end: nat, sha256: Bytes -> string)
    requires Consistent(s, sha256) && bucket != INTERNAL_STORAGE_DIR && (bucket, key) !in s.window && Shown(s.files, bucket, key)
    requires s.files[ObjectPath(bucket, key).value].Data? ==> |s.files[ObjectPath(bucket, key).value].bytes| <= U64_MAX
    requires start <= end
    ensures var info, content := s.files[ObjectMetadataPath(bucket, key).value].info, s.files[ObjectPath(bucket, key).value];
            && content.Data?
            && var r := GetObjectRange(Some(info.sizeBytes), Some(content.bytes), start, end);
               && (r.Ok? <==> start <= |content.bytes|)
               && (r.Ok? ==> |r.value.body| == r.value.contentLength && r.value.body == Slice(content.bytes, start, end - start))
  {
    assert Agrees(s.files, bucket, key, sha256);
    var content := s.files[ObjectPath(bucket, key).value];
    if start <= |content.bytes| {
      AgreeingObjectRange(content.bytes, start, end);
    }
  }
}
