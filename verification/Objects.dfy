/** The local multipart writer and object deletion, call by call over a disk whose calls can fail. */
module Objects {
  import opened Wrappers
  import opened ByteStrings
  import opened Keys
  import opened TempNames
  import opened Streams
  import opened ObjectAgreement
  import opened DiskCalls

  /** The file system below the storage root, and its answer to each call from the first on. */
  class Disk {
    const sha256: Bytes -> string
    const answers: nat -> Answer
    var world: World

    constructor (sha256: Bytes -> string, files: Files, answers: nat -> Answer)
      ensures this.sha256 == sha256 && this.answers == answers && world == World(files, [], [])
    {
      this.sha256, this.answers, world := sha256, answers, World(files, [], []);
    }

    method Do(call: Call) returns (ok: bool)
      modifies this
      ensures world == Next(old(world), call, answers) && ok == Works(old(world), call, answers)
    {
      ok := Works(world, call, answers);
      world := Next(world, call, answers);
    }
  }

  class LocalMultipartWriter {
    const disk: Disk
    const paths: Paths
    const contentType: Option<string>
    const metadata: map<string, string>
    var hashed: Bytes  // what the hasher has been fed
    var sizeBytes: nat
    ghost var failed: bool  // some write_chunk has returned an error

    ghost predicate Valid()
      reads this, disk
    {
      && paths.Distinct() && sizeBytes == Counted(|hashed|)
      && paths.temp in disk.world.files && disk.world.files[paths.temp].Data?
      && (!failed ==> disk.world.files[paths.temp].bytes == hashed)
    }

    constructor (disk: Disk, paths: Paths, contentType: Option<string>, metadata: map<string, string>)
      requires paths.Distinct() && At(disk.world.files, paths.temp) == Some(Data([]))
      ensures Valid() && hashed == [] && !failed && this.disk == disk && this.paths == paths
      ensures this.contentType == contentType && this.metadata == metadata
    {
      this.disk, this.paths, this.contentType, this.metadata := disk, paths, contentType, metadata;
      hashed, sizeBytes, failed := [], 0, false;
    }

    /**
      The chunk is counted and hashed even if writing it fails; no file but the writer's temporary one is touched. A chunk
      without bytes makes no call.
     */
    method WriteChunk(bytes: Bytes) returns (ok: bool)
      requires Valid()
      modifies this, disk
      ensures Valid() && hashed == old(hashed) + bytes && failed == (old(failed) || !ok)
      ensures Made(old(disk.world), disk.world, AppendCalls(paths.temp, bytes), disk.answers)
      ensures ok <==> bytes == [] || disk.answers(|old(disk.world.log)|).Fine?
      ensures Only(old(disk.world.files), disk.world.files, {paths.temp})
    {
      sizeBytes := SaturatingAdd(sizeBytes, |bytes|);
      hashed := hashed + bytes;
      if bytes == [] {
        MadeNone(disk.world, disk.answers);
        return true;
      }
      MadeOne(disk.world, Append(paths.temp, bytes), disk.answers);
      ok := disk.Do(Append(paths.temp, bytes));
      failed := failed || !ok;
    }

    function Info(): (info: ObjectInfo)
      reads this
    {
      ObjectInfo(paths.bucket, paths.key, contentType, metadata, sizeBytes, disk.sha256(hashed), Some(disk.sha256(hashed)))
    }

    /**
      Succeeds exactly if the flush, the sidecar's write and the two renames all work. Success replaces data and sidecar;
      the sidecar describes what was hashed, which is the data unless a failed chunk was passed over. Failure leaves the
      sidecar alone; the data file is the new one exactly if the first rename was made. A failed rename is followed by
      removals, and leaves no temporary file if they work; a flush or a sidecar that fails leaves the data's. Either way no
      other file of the store is touched, in any state since the `from`-th, at which the files were `before`.
     */
    method Complete(ghost from: nat, ghost before: Files) returns (r: Result<ObjectInfo>)
      requires Valid() && OnTheWay(disk.world, from, before, paths, disk.world.files[paths.temp])
      modifies disk
      ensures r.Ok? <==> AllFine(disk.answers, |old(disk.world.log)|, |old(disk.world.log)| + 4)
      ensures Made(old(disk.world), disk.world,
                   CompleteCalls(paths, InfoFor(paths, contentType, metadata, hashed, disk.sha256), disk.answers, |old(disk.world.log)|), disk.answers)
      ensures r.Err? ==> r.error == Io && OnTheWay(disk.world, from, before, paths, old(disk.world.files[paths.temp]))
      ensures r.Ok? ==>
                && r.value == InfoFor(paths, contentType, metadata, hashed, disk.sha256)
                && Uploaded(disk.world, from, before, paths, old(disk.world.files[paths.temp]), r.value)
                && Describes(r.value, paths.bucket, paths.key, Data(hashed), disk.sha256)
      ensures r.Ok? && !failed ==> At(disk.world.files, paths.data) == Some(Data(hashed))
      ensures if AllFine(disk.answers, |old(disk.world.log)|, |old(disk.world.log)| + 2) then
                Placed(disk.world, old(disk.world.files), paths, old(disk.world.files[paths.temp]), disk.answers, |old(disk.world.log)| + 2)
              else Only(old(disk.world.files), disk.world.files, {paths.sidecarTemp})
    {
      ghost var info0, w := InfoFor(paths, contentType, metadata, hashed, disk.sha256), disk.world;
      CompleteRun(w, paths, info0, disk.answers);
      CompleteFacts(w, paths, info0, disk.answers, from, before);
      r := FlushAndPublish();
      RunLog(w, CompleteCalls(paths, info0, disk.answers, |w.log|), disk.answers);
      AllFineFour(disk.answers, |w.log|);
    }

    /** The body of `complete`. */
    method FlushAndPublish() returns (r: Result<ObjectInfo>)
      requires Valid()
      modifies disk
      ensures r.Ok? ==> r.value == InfoFor(paths, contentType, metadata, hashed, disk.sha256)
      ensures r.Err? ==> r.error == Io
      ensures var n := |old(disk.world.log)|;
              r.Ok? <==> disk.answers(n).Fine? && disk.answers(n + 1).Fine? && disk.answers(n + 2).Fine? && disk.answers(n + 3).Fine?
      ensures disk.world ==
              Run(old(disk.world),
                  CompleteCalls(paths, InfoFor(paths, contentType, metadata, hashed, disk.sha256), disk.answers, |old(disk.world.log)|), disk.answers)
    {
      ghost var w := disk.world;
      var ok := disk.Do(Flush(paths.temp));
      var info := Info();
      CompleteRun(w, paths, info, disk.answers);
      if !ok {
        return Err(Io);
      }
      ok := disk.Do(WriteInfo(paths.sidecarTemp, info));
      if !ok {
        return Err(Io);
      }
      RenamesFindFiles(w, paths, info, disk.answers);
      ok := disk.Do(Rename(paths.temp, paths.data));
      if !ok {
        var removed := disk.Do(Remove(paths.temp));
        removed := disk.Do(Remove(paths.sidecarTemp));
        return Err(Io);
      }
      ok := disk.Do(Rename(paths.sidecarTemp, paths.sidecar));
      if !ok {
        var removed := disk.Do(Remove(paths.sidecarTemp));
        return Err(Io);
      }
      return Ok(info);
    }

    /** Both temporary files are removed, the second even if the first stays; only they are touched, in both states passed through. */
    method Abort() returns (ok: bool)
      requires Valid()
      modifies disk
      ensures Made(old(disk.world), disk.world, AbortCalls(paths), disk.answers)
      ensures var n := |old(disk.world.log)|; ok <==> disk.answers(n).Fine? && disk.answers(n + 1).Fine?
      ensures Only(old(disk.world.files), disk.world.files, paths.Temps())
      ensures |disk.world.seen| == |old(disk.world.seen)| + 2
      ensures Only(old(disk.world.files), disk.world.seen[|old(disk.world.seen)|], paths.Temps()) && disk.world.seen[|old(disk.world.seen)| + 1] == disk.world.files
      ensures paths.temp in disk.world.files <==> paths.temp in old(disk.world.files) && !disk.answers(|old(disk.world.log)|).Fine?
      ensures paths.sidecarTemp in disk.world.files <==> paths.sidecarTemp in old(disk.world.files) && !disk.answers(|old(disk.world.log)| + 1).Fine?
    {
      MadeOne(disk.world, Remove(paths.temp), disk.answers);
      MadeNext(disk.world, Next(disk.world, Remove(paths.temp), disk.answers), [Remove(paths.temp)], Remove(paths.sidecarTemp), disk.answers);
      var first := disk.Do(Remove(paths.temp));
      var second := disk.Do(Remove(paths.sidecarTemp));
      return first && second;
    }
  }

  // ---- The store's operations ----

  /**
    `create_multipart_object`: a fresh writer on an empty temporary file, and no other file touched. It succeeds exactly
    if bucket and key are accepted and every call works.
   */
  method CreateMultipartObject(disk: Disk, bucket: string, key: string, contentType: Option<string>, metadata: map<string, string>,
                               u: Uuid, v: Uuid) returns (r: Result<LocalMultipartWriter>)
    modifies disk
    ensures PathsOf(bucket, key, u, v).None? ==> r == Err(InvalidStorageKey) && disk.world == old(disk.world)
    ensures PathsOf(bucket, key, u, v).Some? ==>
              var p, n := PathsOf(bucket, key, u, v).value, |old(disk.world.log)|;
              && (r.Ok? <==> AllFine(disk.answers, n, n + 3)) && (r.Err? ==> r.error == Io)
              && Made(old(disk.world), disk.world, Cut(OpenCalls(p), disk.answers, n), disk.answers)
              && Only(old(disk.world.files), disk.world.files, {p.temp})
    ensures r.Ok? ==>
              && fresh(r.value) && r.value.Valid() && r.value.hashed == [] && !r.value.failed
              && r.value.disk == disk && Some(r.value.paths) == PathsOf(bucket, key, u, v)
              && r.value.contentType == contentType && r.value.metadata == metadata
  {
    var paths := PathsOf(bucket, key, u, v);
    if paths.None? {
      return Err(InvalidStorageKey);
    }
    assert paths.value.Distinct() by {
      WriterPaths(bucket, key, u, v);
      ValidIsDistinct(paths.value);
    }
    r := OpenWriter(disk, paths.value, contentType, metadata);
  }

  /** What opening a writer does once its paths are accepted. */
  method OpenWriter(disk: Disk, paths: Paths, contentType: Option<string>, metadata: map<string, string>)
    returns (r: Result<LocalMultipartWriter>)
    requires paths.Distinct()
    modifies disk
    ensures var n := |old(disk.world.log)|;
            && (r.Ok? <==> AllFine(disk.answers, n, n + 3))
            && Made(old(disk.world), disk.world, Cut(OpenCalls(paths), disk.answers, n), disk.answers)
    ensures Only(old(disk.world.files), disk.world.files, {paths.temp})
    ensures r.Err? ==> r.error == Io
    ensures r.Ok? ==>
              && fresh(r.value) && r.value.Valid() && r.value.hashed == [] && !r.value.failed && r.value.disk == disk
              && r.value.paths == paths && r.value.contentType == contentType && r.value.metadata == metadata
  {
    OpenRun(disk.world, paths, disk.answers);
    var made := disk.Do(MakeParent(paths.data));
    if !made {
      return Err(Io);
    }
    made := disk.Do(MakeParent(paths.sidecar));
    if !made {
      return Err(Io);
    }
    var created := disk.Do(Create(paths.temp));
    if !created {
      return Err(Io);
    }
    var writer := new LocalMultipartWriter(disk, paths, contentType, metadata);
    return Ok(writer);
  }

  /** Feeding a stream to a writer stops at the first error, in the stream or on the disk. */
  method Feed(writer: LocalMultipartWriter, items: seq<Item>) returns (ok: bool)
    requires writer.Valid() && writer.hashed == [] && !writer.failed
    modifies writer, writer.disk
    ensures writer.Valid()
    ensures ok ==> writer.hashed == Readable(items) && !writer.failed
    ensures var n, feed := |old(writer.disk.world.log)|, FeedCalls(writer.paths, items);
            && (ok <==> !Breaks(items) && AllFine(writer.disk.answers, n, n + |feed|))
            && Made(old(writer.disk.world), writer.disk.world, Cut(feed, writer.disk.answers, n), writer.disk.answers)
  {
    hide Run;
    ghost var w := writer.disk.world;
    MadeNone(w, writer.disk.answers);
    var i := 0;
    while i < |items|
      invariant 0 <= i <= |items| && FedTo(writer, items, i, w)
    {
      if items[i].Broken? {
        FeedStep(writer.paths, items, i);
        return false;
      }
      var written := FeedChunk(writer, items, i, w);
      if !written {
        return false;
      }
      i := i + 1;
    }
    assert items[..i] == items;
    return true;
  }

  /** Everything has gone well since w: the first i items are written. */
  ghost predicate FedTo(writer: LocalMultipartWriter, items: seq<Item>, i: nat, w: World)
    requires i <= |items|
    reads writer, writer.disk
  {
    && writer.Valid() && !Breaks(items[..i]) && writer.hashed == Readable(items[..i]) && !writer.failed
    && Made(w, writer.disk.world, FeedCalls(writer.paths, items[..i]), writer.disk.answers)
    && AllFine(writer.disk.answers, |w.log|, |w.log| + |FeedCalls(writer.paths, items[..i])|)
  }

  /** One chunk of a stream. */
  method FeedChunk(writer: LocalMultipartWriter, items: seq<Item>, i: nat, ghost w: World) returns (ok: bool)
    requires i < |items| && items[i].Chunk? && FedTo(writer, items, i, w)
    modifies writer, writer.disk
    ensures writer.Valid()
    ensures ok ==> FedTo(writer, items, i + 1, w)
    ensures !ok ==>
              && Made(w, writer.disk.world, Cut(FeedCalls(writer.paths, items), writer.disk.answers, |w.log|), writer.disk.answers)
              && !AllFine(writer.disk.answers, |w.log|, |w.log| + |FeedCalls(writer.paths, items)|)
  {
    hide Run;
    ReadableStep(items, i);
    ghost var middle := writer.disk.world;
    ok := writer.WriteChunk(items[i].bytes);
    FeedOn(w, middle, writer.disk.world, writer.paths, items, i, writer.disk.answers, ok);
  }

  /** The rest of `put_object_stream`, on its own writer: any failure to feed it aborts it. */
  method Upload(writer: LocalMultipartWriter, items: seq<Item>, ghost from: nat, ghost before: Files) returns (r: Result<ObjectInfo>)
    requires writer.Valid() && writer.hashed == [] && !writer.failed
    requires OnTheWay(writer.disk.world, from, before, writer.paths, Data(Readable(items)))
    modifies writer, writer.disk
    ensures r.Err? ==> r.error == Io
    ensures r.Ok? ==> r.value == InfoFor(writer.paths, writer.contentType, writer.metadata, Readable(items), writer.disk.sha256)
    ensures var n := |old(writer.disk.world.log)|;
            && (r.Ok? <==> !Breaks(items) && AllFine(writer.disk.answers, n, n + |FeedCalls(writer.paths, items)| + 4))
            && Made(old(writer.disk.world), writer.disk.world,
                    UploadCalls(writer.paths, items, InfoFor(writer.paths, writer.contentType, writer.metadata, Readable(items), writer.disk.sha256),
                                writer.disk.answers, n), writer.disk.answers)
  {
    hide Run, OnTheWay, UploadCalls, CompleteCalls, Uploaded, Placed, Only, Breaks, Readable, FeedCalls;
    ghost var w, feed := writer.disk.world, FeedCalls(writer.paths, items);
    ghost var info := InfoFor(writer.paths, writer.contentType, writer.metadata, Readable(items), writer.disk.sha256);
    UploadCallsAre(writer.paths, items, info, writer.disk.answers, |w.log|);
    var fed := Feed(writer, items);
    ghost var middle := writer.disk.world;
    AllFineSplit(writer.disk.answers, |w.log|, |w.log| + |feed|, |w.log| + |feed| + 4);
    if !fed {
      var aborted := writer.Abort();
      MadeJoin(w, middle, writer.disk.world, Cut(feed, writer.disk.answers, |w.log|), AbortCalls(writer.paths), writer.disk.answers);
      return Err(Io);
    }
    FeedIsQuiet(writer.paths, items);
    QuietRun(w, feed, writer.disk.answers, from, before, writer.paths, Data(Readable(items)));
    r := writer.Complete(from, before);
    MadeJoin(w, middle, writer.disk.world, feed, CompleteCalls(writer.paths, info, writer.disk.answers, |middle.log|), writer.disk.answers);
  }

  /** `put_object_stream` once its paths are accepted. */
  method PutUnder(disk: Disk, paths: Paths, contentType: Option<string>, metadata: map<string, string>, items: seq<Item>)
    returns (r: Result<ObjectInfo>)
    requires paths.Distinct()
    modifies disk
    ensures r.Err? ==> r.error == Io
    ensures r.Ok? ==> r.value == InfoFor(paths, contentType, metadata, Readable(items), disk.sha256)
    ensures var n, info := |old(disk.world.log)|, InfoFor(paths, contentType, metadata, Readable(items), disk.sha256);
            && (r.Ok? <==> !Breaks(items) && AllFine(disk.answers, n, n + 3 + |FeedCalls(paths, items)| + 4))
            && Made(old(disk.world), disk.world, PutCalls(paths, items, info, disk.answers, n), disk.answers)
  {
    hide Run, OnTheWay, UploadCalls, FeedCalls, Breaks, Readable;
    ghost var w, opening := disk.world, Cut(OpenCalls(paths), disk.answers, |disk.world.log|);
    AllFineSplit(disk.answers, |w.log|, |w.log| + 3, |w.log| + 3 + |FeedCalls(paths, items)| + 4);
    var created := OpenWriter(disk, paths, contentType, metadata);
    ghost var middle := disk.world;
    if created.Err? {
      assert opening + [] == opening;
      return Err(created.error);
    }
    Begins(w, paths, Data(Readable(items)));
    QuietRun(w, opening, disk.answers, |w.seen|, w.files, paths, Data(Readable(items)));
    r := Upload(created.value, items, |w.seen|, w.files);
    ghost var info := InfoFor(paths, contentType, metadata, Readable(items), disk.sha256);
    MadeJoin(w, middle, disk.world, opening, UploadCalls(paths, items, info, disk.answers, |middle.log|), disk.answers);
  }

  /**
    `put_object_stream`: it succeeds exactly if bucket and key are accepted, the stream does not break and every call
    works, and makes just the calls given by `PutCalls`. Success stores the whole stream and a sidecar that describes it;
    failure leaves the sidecar alone, and the data file old, or new and whole, and no temporary file if it came to removals
    and they worked. No state on the way touches a file that is not the writer's own.
   */
  method PutObjectStream(disk: Disk, bucket: string, key: string, contentType: Option<string>, metadata: map<string, string>,
                         items: seq<Item>, u: Uuid, v: Uuid) returns (r: Result<ObjectInfo>)
    modifies disk
    ensures PathsOf(bucket, key, u, v).None? ==> r == Err(InvalidStorageKey) && disk.world == old(disk.world)
    ensures PathsOf(bucket, key, u, v).Some? ==>
              var p, n := PathsOf(bucket, key, u, v).value, |old(disk.world.log)|;
              var info := InfoFor(p, contentType, metadata, Readable(items), disk.sha256);
              && (r.Ok? <==> !Breaks(items) && AllFine(disk.answers, n, n + 3 + |FeedCalls(p, items)| + 4))
              && (r.Err? ==> r.error == Io) && (r.Ok? ==> r.value == info)
              && Made(old(disk.world), disk.world, PutCalls(p, items, info, disk.answers, n), disk.answers)
              && PutOutcome(old(disk.world), disk.world, p, items, info, disk.answers, r.Ok?)
  {
    var paths := PathsOf(bucket, key, u, v);
    if paths.None? {
      return Err(InvalidStorageKey);
    }
    assert paths.value.Distinct() by {
      WriterPaths(bucket, key, u, v);
      ValidIsDistinct(paths.value);
    }
    hide Run, PutOutcome, PutCalls, AllFine, FeedCalls, Breaks, Readable;
    ghost var w, info := disk.world, InfoFor(paths.value, contentType, metadata, Readable(items), disk.sha256);
    r := PutUnder(disk, paths.value, contentType, metadata, items);
    PutFacts(w, paths.value, items, info, disk.answers);
  }

  /**
    `delete_object`, data first: it succeeds exactly if bucket and key are accepted and both removals work. Success leaves
    neither file; any failure leaves the object as it was or its sidecar alone on the disk, shown no more. No other file is
    touched.
   */
  method DeleteObject(disk: Disk, bucket: string, key: string) returns (r: Result<()>)
    modifies disk
    ensures ObjectPath(bucket, key).Err? ==> r == Err(InvalidStorageKey) && disk.world == old(disk.world)
    ensures ObjectPath(bucket, key).Ok? ==>
              var data, sidecar, n := ObjectPath(bucket, key).value, ObjectMetadataPath(bucket, key).value, |old(disk.world.log)|;
              && (r.Ok? <==> AllFine(disk.answers, n, n + 2)) && (r.Err? ==> r.error == Io)
              && disk.world.log == old(disk.world.log) + Cut(DeleteCalls(data, sidecar), disk.answers, n)
              && (r.Ok? ==>
                    && disk.world.files == old(disk.world.files) - {data, sidecar}
                    && disk.world.seen == old(disk.world.seen) + [old(disk.world.files) - {data}, disk.world.files])
              && (r.Err? ==>
                    if disk.answers(n).Fine? then
                      && disk.world.files == old(disk.world.files) - {data} && !Shown(disk.world.files, bucket, key)
                      && disk.world.seen == old(disk.world.seen) + [disk.world.files, disk.world.files]
                    else disk.world.files == old(disk.world.files) && disk.world.seen == old(disk.world.seen) + [disk.world.files])
  {
    var data, sidecar := ObjectPath(bucket, key), ObjectMetadataPath(bucket, key);
    if data.Err? || sidecar.Err? {
      return Err(InvalidStorageKey);
    }
    r := DeleteFiles(disk, data.value, sidecar.value);
  }

  method DeleteFiles(disk: Disk, data: string, sidecar: string) returns (r: Result<()>)
    modifies disk
    ensures var n := |old(disk.world.log)|;
            && (r.Ok? <==> AllFine(disk.answers, n, n + 2)) && (r.Err? ==> r.error == Io)
            && disk.world.log == old(disk.world.log) + Cut(DeleteCalls(data, sidecar), disk.answers, n)
            && (r.Ok? ==>
                  && disk.world.files == old(disk.world.files) - {data, sidecar}
                  && disk.world.seen == old(disk.world.seen) + [old(disk.world.files) - {data}, disk.world.files])
            && (r.Err? ==>
                  if disk.answers(n).Fine? then
                    disk.world.files == old(disk.world.files) - {data} && disk.world.seen == old(disk.world.seen) + [disk.world.files, disk.world.files]
                  else disk.world.files == old(disk.world.files) && disk.world.seen == old(disk.world.seen) + [disk.world.files])
  {
    AllFineFour(disk.answers, |disk.world.log|);
    DeleteCut(data, sidecar, disk.answers, |disk.world.log|);
    var removed := disk.Do(Remove(data));
    if !removed {
      return Err(Io);
    }
    removed := disk.Do(Remove(sidecar));
    if !removed {
      return Err(Io);
    }
    assert disk.world.files == (old(disk.world.files) - {data}) - {sidecar};
    return Ok(());
  }
}
