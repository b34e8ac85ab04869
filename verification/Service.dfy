/** The storage service on an SMB backend: storing an object under a generated key and reading it back. */
module Service {
  import opened Wrappers
  import opened ByteStrings
  import opened Keys
  import opened TempNames
  import opened GeneratedKeys
  import opened Streams
  import opened SmbTransfer

  datatype StoredObject = StoredObject(objectId: Uuid, namespace: StorageNamespace, storageKey: string,
                                       originalFileName: Option<string>, mimeType: Option<string>,
                                       sizeBytes: nat, sha256: string)

  datatype PutRequest = PutRequest(namespace: StorageNamespace, fileName: Option<string>, mimeType: Option<string>, body: seq<Item>)

  /** `build_stream_stored_object`: size and hash are filled in after the write. */
  function BuildStreamStoredObject(id: Uuid, request: PutRequest): StoredObject {
    StoredObject(id, request.namespace, ObjectKey(request.namespace, id, request.fileName), request.fileName, request.mimeType, 0, "")
  }

  /** The share holds, under the object's key, a body of the recorded size and hash. */
  ghost predicate Intact(stored: StoredObject, files: Files, sha256: Bytes -> string) {
    && stored.storageKey in files
    && stored.sizeBytes == Counted(|files[stored.storageKey]|) && stored.sha256 == sha256(files[stored.storageKey])
  }

  /**
    `put_object_stream`: the generated key is never refused; success means that the whole stream is stored
    and described, and no state passed through shows a part of it under the key.
   */
  method PutObjectStream(server: Server, id: Uuid, request: PutRequest, temp: Uuid, sha256: Bytes -> string)
    returns (r: Result<StoredObject>)
    modifies server
    ensures r != Err(InvalidStorageKey)
    ensures r.Ok? ==>
              && Intact(r.value, server.files, sha256) && !Breaks(request.body)
              && server.files[r.value.storageKey] == Readable(request.body)
              && r.value.storageKey == ObjectKey(request.namespace, id, request.fileName) && r.value.objectId == id
              && r.value.namespace == request.namespace && r.value.originalFileName == request.fileName && r.value.mimeType == request.mimeType
    ensures r.Err? ==> r.error == Provider
    ensures r.Ok? <==> !Breaks(request.body) && AllAccepted(server.answers, |old(server.log)|, |server.log|)
    ensures var key := ObjectKey(request.namespace, id, request.fileName);
            && SmbTempKey(key, temp).Ok?
            && Publishing(server, |old(server.seen)|, old(server.files), key, SmbTempKey(key, temp).value, request.body)
  {
    var stored := BuildStreamStoredObject(id, request);
    ObjectKeyParts(request.namespace, id, request.fileName);
    var outcome;
    ghost var requests;
    outcome, requests := PutBlob(server, stored.storageKey, request.body, temp, sha256);
    match outcome {
      case Err(e) => return Err(e);
      case Ok(written) =>
        return Ok(stored.(sizeBytes := written.sizeBytes, sha256 := written.sha256));
    }
  }

  /** SMB `get_blob` on files that do not change while the stream is read. */
  function Blob(files: Files, key: string, replies: Replies): Result<seq<Item>> {
    if !ValidKey(key) then Err(InvalidStorageKey)
    else if !replies.opens || key !in files then Err(Provider)
    else Ok(AllRead(files[key], replies))
  }

  method GetBlob(files: Files, key: string, replies: Replies) returns (r: Result<seq<Item>>)
    ensures r == Blob(files, key, replies)
  {
    if !ValidKey(key) {
      return Err(InvalidStorageKey);
    }
    if !replies.opens || key !in files {
      return Err(Provider);
    }
    var items := ReadAll(files[key], replies);
    return Ok(items);
  }

  /**
    `get_object`: whatever the chunking, the bytes returned are those stored, with the recorded size and hash if the
    object is intact; and they are returned if the key is valid, the file is there and the server answers.
   */
  method GetObject(files: Files, stored: StoredObject, replies: Replies, sha256: Bytes -> string) returns (r: Result<Bytes>)
    ensures r.Ok? ==> stored.storageKey in files && r.value == files[stored.storageKey]
    ensures r.Ok? && Intact(stored, files, sha256) ==>
              Counted(|r.value|) == stored.sizeBytes && sha256(r.value) == stored.sha256
    ensures r.Ok? <==>
              ValidKey(stored.storageKey) && stored.storageKey in files && replies.opens && !Breaks(AllRead(files[stored.storageKey], replies))
    ensures r == Err(InvalidStorageKey) <==> !ValidKey(stored.storageKey)
    ensures replies.Sound() ==> (r.Ok? <==> ValidKey(stored.storageKey) && stored.storageKey in files)
  {
    var blob := GetBlob(files, stored.storageKey, replies);
    match blob {
      case Err(e) => return Err(e);
      case Ok(items) =>
        ReadIsPrefix(files[stored.storageKey], replies);
        r := CollectStorageStream(items);
    }
  }

  lemma SliceOfPrefix(part: Bytes, body: Bytes, skip: nat, length: nat)
    requires part <= body && (part == body || length == 0 || |part| >= skip + length)
    ensures Slice(part, skip, length) == Slice(body, skip, length)
  {
  }

  /**
    `get_object_range_stream`, collected: a read error after the range is satisfied does not matter, and there is
    none if the server answers.
   */
  method GetObjectRange(files: Files, stored: StoredObject, start: nat, end: nat, replies: Replies) returns (r: Result<Bytes>)
    ensures r == Err(PreconditionFailed) <==> end < start
    ensures r == Err(InvalidStorageKey) <==> start <= end && !ValidKey(stored.storageKey)
    ensures r.Ok? <==>
              && start <= end && ValidKey(stored.storageKey) && stored.storageKey in files && replies.opens
              && var items := AllRead(files[stored.storageKey], replies); !(Breaks(items) && start < end && |Readable(items)| < end)
    ensures r.Ok? ==>
              && start <= end && stored.storageKey in files
              && r.value == Slice(files[stored.storageKey], start, end - start)
    ensures replies.Sound() ==> (r.Ok? <==> start <= end && ValidKey(stored.storageKey) && stored.storageKey in files)
  {
    if end < start {
      return Err(PreconditionFailed);
    }
    var blob := GetBlob(files, stored.storageKey, replies);
    match blob {
      case Err(e) => return Err(e);
      case Ok(items) =>
        RangedIsSlice(items, start, end - start);
        ReadIsPrefix(files[stored.storageKey], replies);
        r := CollectRange(items, start, end - start);
        if r.Ok? {
          SliceOfPrefix(Readable(items), files[stored.storageKey], start, end - start);
        }
    }
  }

  /**
    Storing a stream and reading it back from the same share gives the stream's bytes, or reports an error, and none
    if the server answers every request of the read.
   */
  method PutThenGet(server: Server, id: Uuid, request: PutRequest, temp: Uuid, replies: Replies, sha256: Bytes -> string)
    returns (stored: Result<StoredObject>, r: Result<Bytes>)
    modifies server
    ensures r.Ok? ==>
              && stored.Ok? && !Breaks(request.body) && r.value == Readable(request.body)
              && stored.value.sizeBytes == Counted(|r.value|) && stored.value.sha256 == sha256(r.value)
    ensures stored.Ok? <==> !Breaks(request.body) && AllAccepted(server.answers, |old(server.log)|, |server.log|)
    ensures stored.Ok? && replies.Sound() ==> r.Ok?
  {
    stored := PutObjectStream(server, id, request, temp, sha256);
    if stored.Err? {
      return stored, Err(stored.error);
    }
    ObjectKeyParts(request.namespace, id, request.fileName);
    r := GetObject(server.files, stored.value, replies, sha256);
  }
}
