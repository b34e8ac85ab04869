/** SMB transfers: the short-write and short-read loops, and publication by temporary file and rename. */
module SmbTransfer {
  import opened Wrappers
  import opened Sequences
  import opened ByteStrings
  import opened Streams
  import opened Keys
  import opened TempNames

  const READ_CHUNK_SIZE := 256 * 1024

  type Files = map<string, Bytes>

  function At(files: Files, key: string): Option<Bytes> {
    if key in files then Some(files[key]) else None
  }

  /** a and b agree on every key but one. */
  ghost predicate SameBut(a: Files, b: Files, key: string) {
    forall k | k != key :: At(a, k) == At(b, k)
  }

  datatype CreateReply = Opened | Collision | NoReply

  type Positive = n: nat | n > 0 witness 1

  /**
    How the server answers a request. An accepted WRITE takes at most `count` bytes; a rejected one takes none, and
    any other request that is rejected has no effect; one that is not answered may have taken effect, a WRITE in part.
   */
  datatype Answer = Accepted(count: Positive) | Rejected | Unanswered(applied: bool, taken: nat)

  /** These answers, from the first to before the last, are all of success. */
  ghost predicate AllAccepted(answers: nat -> Answer, first: nat, last: nat) {
    forall i | first <= i < last :: answers(i).Accepted?
  }

  datatype Request =
    | Create(key: string, exclusive: bool)
    | Write(key: string, offset: nat, data: Bytes)
    | Flush(key: string)
    | Close(key: string)
    | Rename(from: string, to: string)
    | Remove(key: string)

  /**
    A share, and its answer to each request from the first on. Each request takes effect at once or not at all.
    `log` holds the requests so far, and `seen` the files after every one.
   */
  class Server {
    const answers: nat -> Answer
    var files: Files
    var log: seq<Request>
    ghost var seen: seq<Files>

    constructor (files: Files, answers: nat -> Answer)
      ensures this.files == files && this.answers == answers && log == [] && seen == []
    {
      this.files, this.answers, log, seen := files, answers, [], [];
    }

    /** CREATE, overwriting an existing file or refusing it. */
    method CreateFile(key: string, exclusive: bool) returns (reply: CreateReply)
      modifies this
      ensures log == old(log) + [Create(key, exclusive)] && seen == old(seen) + [files]
      ensures reply == NoReply <==> !answers(|old(log)|).Accepted?
      ensures reply == Collision <==> answers(|old(log)|).Accepted? && exclusive && key in old(files)
      ensures reply == Collision ==> files == old(files)
      ensures reply == Opened ==> files == old(files)[key := []] && (exclusive ==> key !in old(files))
      ensures reply == NoReply ==> files == old(files) || (files == old(files)[key := []] && (exclusive ==> key !in old(files)))
    {
      var answer := answers(|log|);
      if exclusive && key in files {
        reply := if answer.Accepted? then Collision else NoReply;
      } else {
        reply := if answer.Accepted? then Opened else NoReply;
        if answer.Accepted? || (answer.Unanswered? && answer.applied) {
          files := files[key := []];
        }
      }
      log, seen := log + [Create(key, exclusive)], seen + [files];
    }

    /** WRITE at the end of a file: the server may take fewer bytes than offered. */
    method WriteBlock(key: string, data: Bytes, offset: nat) returns (count: Option<nat>)
      requires key in files && offset == |files[key]| && data != []
      modifies this
      ensures log == old(log) + [Write(key, offset, data)] && seen == old(seen) + [files]
      ensures count.Some? && count.value > 0 <==> answers(|old(log)|).Accepted?
      ensures count.Some? ==> count.value <= |data| && files == old(files)[key := old(files)[key] + data[..count.value]]
      ensures count.None? ==> key in files && SameBut(files, old(files), key)
    {
      var answer := answers(|log|);
      var taken := match answer
                   case Accepted(n) => Min(n, |data|)
                   case Rejected => 0
                   case Unanswered(applied, n) => if applied then Min(n, |data|) else 0;
      files := files[key := files[key] + data[..taken]];
      count := if answer.Unanswered? then None else Some(taken);
      log, seen := log + [Write(key, offset, data)], seen + [files];
    }

    /** FLUSH and CLOSE change no contents. */
    method Settle(request: Request) returns (ok: bool)
      modifies this
      ensures log == old(log) + [request] && seen == old(seen) + [files] && files == old(files)
      ensures ok <==> answers(|old(log)|).Accepted?
    {
      ok := answers(|log|).Accepted?;
      log, seen := log + [request], seen + [files];
    }

    /** Rename over the target, atomic on the server. */
    method RenameFile(from: string, to: string) returns (ok: bool)
      modifies this
      ensures log == old(log) + [Rename(from, to)] && seen == old(seen) + [files]
      ensures ok <==> answers(|old(log)|).Accepted? && from in old(files)
      ensures files == old(files) || (from in old(files) && files == (old(files) - {from})[to := old(files)[from]])
      ensures ok ==> files == (old(files) - {from})[to := old(files)[from]]
    {
      var answer := answers(|log|);
      ok := answer.Accepted? && from in files;
      if from in files && (answer.Accepted? || (answer.Unanswered? && answer.applied)) {
        files := (files - {from})[to := files[from]];
      }
      log, seen := log + [Rename(from, to)], seen + [files];
    }

    /** Delete by name. */
    method RemoveFile(key: string) returns (ok: bool)
      modifies this
      ensures log == old(log) + [Remove(key)] && seen == old(seen) + [files]
      ensures files == old(files) || files == old(files) - {key}
      ensures ok <==> answers(|old(log)|).Accepted?
      ensures ok ==> files == old(files) - {key}
    {
      var answer := answers(|log|);
      ok := answer.Accepted?;
      if answer.Accepted? || (answer.Unanswered? && answer.applied) {
        files := files - {key};
      }
      log, seen := log + [Remove(key)], seen + [files];
    }
  }

  /** Since the moment when `before` states had been seen, only `key` has changed from what `files0` held. */
  ghost predicate OnlyTouched(server: Server, before: nat, files0: Files, key: string)
    reads server
  {
    && before <= |server.seen|
    && SameBut(server.files, files0, key)
    && forall i | before <= i < |server.seen| :: SameBut(server.seen[i], files0, key)
  }

  datatype WriteResult = Written(outcome: WriteOutcome) | Refused | Failed

  /** These requests write to the key's file, and do nothing else. */
  ghost predicate AllWrites(requests: seq<Request>, key: string) {
    forall i | 0 <= i < |requests| :: requests[i].Write? && requests[i].key == key
  }

  /** The inner loop of `write_file`: offer one chunk until the server has taken all of it. */
  method WriteChunk(server: Server, key: string, chunk: Bytes, offset0: nat, ghost before: nat, ghost files0: Files)
    returns (ok: bool, offset: nat, ghost writes: seq<Request>)
    requires key in server.files && offset0 == |server.files[key]| && OnlyTouched(server, before, files0, key)
    modifies server
    ensures OnlyTouched(server, before, files0, key) && key in server.files
    ensures server.log == old(server.log) + writes && AllWrites(writes, key)
    ensures ok ==> server.files[key] == old(server.files)[key] + chunk && offset == |server.files[key]|
    ensures ok <==> AllAccepted(server.answers, |old(server.log)|, |server.log|)
  {
    var written := 0;
    offset, writes := offset0, [];
    while written < |chunk|
      invariant 0 <= written <= |chunk| && key in server.files && OnlyTouched(server, before, files0, key)
      invariant server.files[key] == old(server.files)[key] + chunk[..written] && offset == |server.files[key]|
      invariant server.log == old(server.log) + writes && AllWrites(writes, key)
      invariant AllAccepted(server.answers, |old(server.log)|, |server.log|)
      decreases |chunk| - written
    {
      var count := server.WriteBlock(key, chunk[written..], offset);
      writes := writes + [Write(key, offset, chunk[written..])];
      if count.None? || count.value == 0 {
        return false, offset, writes;
      }
      assert chunk[..written] + chunk[written..][..count.value] == chunk[..written + count.value];
      written := written + count.value;
      offset := offset + count.value;
    }
    assert chunk[..written] == chunk;
    return true, offset, writes;
  }

  /**
    The requests that follow the creation of a file: writes, and then flush and close if the write succeeds. If it fails,
    the last are to close the file and to remove it, unless flushed and closed before.
   */
  ghost predicate FillRequests(requests: seq<Request>, key: string, ok: bool) {
    exists writes :: AllWrites(writes, key)
      && if ok then requests == writes + [Flush(key), Close(key)]
         else requests == writes + [Close(key), Remove(key)] || requests == writes + [Flush(key), Close(key), Remove(key)]
  }

  /** `cleanup_failed_write`: close, then delete by name; both may fail. */
  method CleanupFailedWrite(server: Server, key: string, ghost before: nat, ghost files0: Files) returns (ghost requests: seq<Request>)
    requires OnlyTouched(server, before, files0, key)
    modifies server
    ensures OnlyTouched(server, before, files0, key)
    ensures server.log == old(server.log) + requests && requests == [Close(key), Remove(key)] && FillRequests(requests, key, false)
    ensures server.answers(|old(server.log)| + 1).Accepted? ==> key !in server.files
  {
    assert AllWrites([], key);
    requests := [] + [Close(key), Remove(key)];
    var closed := server.Settle(Close(key));
    var removed := server.RemoveFile(key);
  }

  /** The requests of a `write_file`: one to create the file, and the others only if that opens it. */
  ghost predicate WriteRequests(requests: seq<Request>, key: string, exclusive: bool, opens: bool, ok: bool) {
    && requests != [] && requests[0] == Create(key, exclusive)
    && if opens then FillRequests(requests[1..], key, ok) else |requests| == 1 && !ok
  }

  /** The end of `write_file`: flush and close; when either fails the file is removed by name, which may fail too. */
  method SettleWritten(server: Server, key: string, ghost before: nat, ghost files0: Files) returns (ok: bool, ghost requests: seq<Request>)
    requires OnlyTouched(server, before, files0, key)
    modifies server
    ensures OnlyTouched(server, before, files0, key)
    ensures server.log == old(server.log) + requests && |requests| >= 2 && FillRequests(requests, key, ok)
    ensures ok ==> server.files == old(server.files)
    ensures !ok && server.answers(|server.log| - 1).Accepted? ==> key !in server.files
    ensures ok <==> AllAccepted(server.answers, |old(server.log)|, |server.log|)
  {
    assert AllWrites([], key);
    requests := [] + [Flush(key), Close(key)];
    var flushed := server.Settle(Flush(key));
    if !flushed {
      ghost var cleanup := CleanupFailedWrite(server, key, before, files0);
      return false, [] + [Flush(key), Close(key), Remove(key)];
    }
    var closed := server.Settle(Close(key));
    if !closed {
      var removed := server.RemoveFile(key);
      return false, [] + [Flush(key), Close(key), Remove(key)];
    }
    return true, requests;
  }

  lemma MoreWrites(log: seq<Request>, a: seq<Request>, b: seq<Request>, key: string, answers: nat -> Answer)
    requires AllWrites(a, key) && AllWrites(b, key) && AllAccepted(answers, |log|, |log + a|)
    ensures (log + a) + b == log + (a + b) && AllWrites(a + b, key)
    ensures AllAccepted(answers, |log|, |log + (a + b)|) <==> AllAccepted(answers, |log + a|, |(log + a) + b|)
  {
  }

  lemma MoreFilled(log: seq<Request>, a: seq<Request>, b: seq<Request>, key: string, ok: bool, answers: nat -> Answer)
    requires AllWrites(a, key) && FillRequests(b, key, ok) && AllAccepted(answers, |log|, |log + a|)
    ensures (log + a) + b == log + (a + b) && FillRequests(a + b, key, ok)
    ensures AllAccepted(answers, |log|, |log + (a + b)|) <==> AllAccepted(answers, |log + a|, |(log + a) + b|)
  {
    var writes :| AllWrites(writes, key)
      && if ok then b == writes + [Flush(key), Close(key)]
         else b == writes + [Close(key), Remove(key)] || b == writes + [Flush(key), Close(key), Remove(key)];
    assert AllWrites(a + writes, key);
    ConcatAssociative(a, writes, [Flush(key), Close(key)]);
    ConcatAssociative(a, writes, [Close(key), Remove(key)]);
    ConcatAssociative(a, writes, [Flush(key), Close(key), Remove(key)]);
  }

  /** One item of the stream, with the cleanup when it is an error or cannot be written. */
  method FillItem(server: Server, key: string, item: Item, offset0: nat, ghost before: nat, ghost files0: Files)
    returns (ok: bool, offset: nat, ghost requests: seq<Request>)
    requires key in server.files && offset0 == |server.files[key]| && OnlyTouched(server, before, files0, key)
    modifies server
    ensures OnlyTouched(server, before, files0, key) && server.log == old(server.log) + requests
    ensures ok <==> item.Chunk? && AllAccepted(server.answers, |old(server.log)|, |server.log|)
    ensures ok ==> At(server.files, key) == Some(old(server.files)[key] + item.bytes) && offset == offset0 + |item.bytes| && AllWrites(requests, key)
    ensures !ok ==> |requests| >= 2 && FillRequests(requests, key, false) && (server.answers(|server.log| - 1).Accepted? ==> key !in server.files)
  {
    ok, offset, requests := false, offset0, [];
    if item.Chunk? {
      ok, offset, requests := WriteChunk(server, key, item.bytes, offset0, before, files0);
    }
    if !ok {
      assert AllWrites(requests, key);
      ghost var cleanup := CleanupFailedWrite(server, key, before, files0);
      requests := requests + [Close(key), Remove(key)];
    }
  }

  /** The rest of `write_file` once its file is open and empty. */
  method FillFile(server: Server, key: string, items: seq<Item>, sha256: Bytes -> string, ghost before: nat, ghost files0: Files)
    returns (r: WriteResult, ghost requests: seq<Request>)
    requires OnlyTouched(server, before, files0, key) && At(server.files, key) == Some([])
    modifies server
    ensures OnlyTouched(server, before, files0, key) && !r.Refused?
    ensures r.Written? ==>
              && At(server.files, key) == Some(Readable(items))
              && r.outcome == WriteOutcome(Counted(|Readable(items)|), sha256(Readable(items)))
    ensures r.Written? <==> !Breaks(items) && AllAccepted(server.answers, |old(server.log)|, |server.log|)
    ensures server.log == old(server.log) + requests && |requests| >= 2 && FillRequests(requests, key, r.Written?)
    ensures r.Failed? && server.answers(|server.log| - 1).Accepted? ==> key !in server.files
  {
    var offset := 0;
    var hashed: Bytes := [];
    var i := 0;
    requests := [];
    while i < |items|
      invariant 0 <= i <= |items| && !Breaks(items[..i])
      invariant At(server.files, key) == Some(hashed) && OnlyTouched(server, before, files0, key)
      invariant hashed == Readable(items[..i]) && offset == |hashed|
      invariant server.log == old(server.log) + requests && AllWrites(requests, key)
      invariant AllAccepted(server.answers, |old(server.log)|, |server.log|)
    {
      var ok;
      ghost var more;
      ok, offset, more := FillItem(server, key, items[i], offset, before, files0);
      if !ok {
        MoreFilled(old(server.log), requests, more, key, false, server.answers);
        return Failed, requests + more;
      }
      ReadableStep(items, i);
      hashed := hashed + items[i].bytes;
      MoreWrites(old(server.log), requests, more, key, server.answers);
      requests := requests + more;
      i := i + 1;
    }
    assert items[..i] == items;
    ghost var more;
    var settled;
    settled, more := SettleWritten(server, key, before, files0);
    MoreFilled(old(server.log), requests, more, key, settled, server.answers);
    return if settled then Written(WriteOutcome(Counted(offset), sha256(hashed))) else Failed, requests + more;
  }

  /** `write_file`, once it holds its permit. */
  method WriteFile(server: Server, key: string, items: seq<Item>, exclusive: bool, sha256: Bytes -> string)
    returns (r: WriteResult, ghost requests: seq<Request>)
    modifies server
    ensures OnlyTouched(server, |old(server.seen)|, old(server.files), key)
    ensures r.Written? ==>
              && !Breaks(items) && At(server.files, key) == Some(Readable(items))
              && r.outcome == WriteOutcome(Counted(|Readable(items)|), sha256(Readable(items)))
              && (exclusive ==> key !in old(server.files))
    ensures r.Written? <==>
              !Breaks(items) && !(exclusive && key in old(server.files)) && AllAccepted(server.answers, |old(server.log)|, |server.log|)
    ensures r.Refused? <==> exclusive && key in old(server.files) && server.answers(|old(server.log)|).Accepted?
    ensures r.Refused? ==> server.files == old(server.files)
    ensures exclusive && key in old(server.files) ==> !r.Written? && server.files == old(server.files)
    // what is requested, and that a file that was opened is gone after a failure if its removal is accepted
    ensures server.log == old(server.log) + requests
    ensures WriteRequests(requests, key, exclusive, Opens(server, |old(server.log)|, exclusive, key in old(server.files)), r.Written?)
    ensures r.Failed? && Opens(server, |old(server.log)|, exclusive, key in old(server.files)) && server.answers(|server.log| - 1).Accepted? ==>
              key !in server.files
  {
    ghost var before, files0 := |server.seen|, server.files;
    requests := [Create(key, exclusive)];
    var reply := server.CreateFile(key, exclusive);
    match reply {
      case Collision => return Refused, requests;
      case NoReply => return Failed, requests;
      case Opened =>
    }
    ghost var more;
    r, more := FillFile(server, key, items, sha256, before, files0);
    assert ([Create(key, exclusive)] + more)[1..] == more;
    requests := requests + more;
  }

  /** The CREATE at this place in the log opens a file. */
  ghost predicate Opens(server: Server, at: nat, exclusive: bool, present: bool) {
    server.answers(at).Accepted? && !(exclusive && present)
  }

  /** The key holds what it held before, or the whole new body. */
  ghost predicate OldOrWhole(files: Files, files0: Files, key: string, items: seq<Item>) {
    || At(files, key) == At(files0, key)
    || (!Breaks(items) && At(files, key) == Some(Readable(items)))
  }

  /** Every state from the `before`-th on, and the present one, is `OldOrWhole` and touches nothing but the key and its temporary file. */
  ghost predicate Publishing(server: Server, before: nat, files0: Files, key: string, temp: string, items: seq<Item>)
    reads server
  {
    && before <= |server.seen|
    && Confined(server.files, files0, key, temp, items)
    && forall i | before <= i < |server.seen| :: Confined(server.seen[i], files0, key, temp, items)
  }

  ghost predicate Confined(files: Files, files0: Files, key: string, temp: string, items: seq<Item>) {
    && OldOrWhole(files, files0, key, items)
    && forall k | k != key && k != temp :: At(files, k) == At(files0, k)
  }

  lemma TouchedIsPublishing(server: Server, before: nat, files0: Files, key: string, temp: string, items: seq<Item>)
    requires temp != key && OnlyTouched(server, before, files0, temp)
    ensures Publishing(server, before, files0, key, temp, items)
  {
  }

  lemma RemovalConfined(files: Files, files0: Files, key: string, temp: string, items: seq<Item>)
    requires temp != key && Confined(files, files0, key, temp, items)
    ensures Confined(files - {temp}, files0, key, temp, items)
  {
    assert forall k | k != temp :: At(files - {temp}, k) == At(files, k);
  }

  lemma RenameConfined(files: Files, files0: Files, key: string, temp: string, items: seq<Item>)
    requires temp != key && Confined(files, files0, key, temp, items)
    requires !Breaks(items) && temp in files && files[temp] == Readable(items)
    ensures Confined((files - {temp})[key := files[temp]], files0, key, temp, items)
  {
    var after := (files - {temp})[key := files[temp]];
    assert forall k | k != temp && k != key :: At(after, k) == At(files, k);
    assert At(after, key) == Some(Readable(items));
  }

  /** The requests of a `put_blob`: those of writing the temporary file; a rename only once that is written; after a failure a removal. */
  ghost predicate PublishRequests(requests: seq<Request>, key: string, temp: string, ok: bool) {
    exists writes, opens, written :: WriteRequests(writes, temp, false, opens, written)
      && if ok then written && requests == writes + [Rename(temp, key), Close(temp)]
         else requests == writes + (if written then [Rename(temp, key), Close(temp), Remove(temp)] else [Remove(temp)])
  }

  /** `put_blob` once the temporary file is written. */
  method RenameIntoPlace(server: Server, key: string, temp: string, items: seq<Item>, ghost before: nat, ghost files0: Files) returns (ok: bool)
    requires temp != key && Publishing(server, before, files0, key, temp, items)
    requires !Breaks(items) && At(server.files, temp) == Some(Readable(items))
    modifies server
    ensures Publishing(server, before, files0, key, temp, items)
    ensures ok <==> AllAccepted(server.answers, |old(server.log)|, |server.log|)
    ensures ok ==> At(server.files, key) == Some(Readable(items)) && temp !in server.files
    ensures server.log == old(server.log) + [Rename(temp, key), Close(temp)] + if ok then [] else [Remove(temp)]
    ensures !ok && server.answers(|server.log| - 1).Accepted? ==> temp !in server.files
  {
    RenameConfined(server.files, files0, key, temp, items);
    var renamed := server.RenameFile(temp, key);
    var closed := server.Settle(Close(temp));
    ok := renamed && closed;
    if !ok {
      RemovalConfined(server.files, files0, key, temp, items);
      var removed := server.RemoveFile(temp);
    }
  }

  lemma RequestsJoin(log: seq<Request>, a: seq<Request>, b: seq<Request>, c: seq<Request>, answers: nat -> Answer)
    requires AllAccepted(answers, |log|, |log + a|)
    ensures (log + a) + b + c == log + (a + (b + c))
    ensures AllAccepted(answers, |log|, |log + (a + (b + c))|) <==> AllAccepted(answers, |log + a|, |(log + a) + b + c|)
  {
  }

  /** `put_blob` from its temporary name on: every failure tries to remove the temporary file by name. */
  method PublishThrough(server: Server, key: string, temp: string, items: seq<Item>, sha256: Bytes -> string)
    returns (r: Result<WriteOutcome>, ghost requests: seq<Request>)
    requires temp != key
    modifies server
    ensures r.Err? ==> r.error == Provider
    ensures r.Ok? ==>
              && !Breaks(items) && At(server.files, key) == Some(Readable(items)) && temp !in server.files
              && r.value == WriteOutcome(Counted(|Readable(items)|), sha256(Readable(items)))
    ensures Publishing(server, |old(server.seen)|, old(server.files), key, temp, items)
    ensures r.Ok? <==> !Breaks(items) && AllAccepted(server.answers, |old(server.log)|, |server.log|)
    // what is requested, and that no temporary file is left after a failure if its last removal is accepted
    ensures server.log == old(server.log) + requests && PublishRequests(requests, key, temp, r.Ok?)
    ensures r.Err? && server.answers(|server.log| - 1).Accepted? ==> temp !in server.files
  {
    ghost var before, files0 := |server.seen|, server.files;
    var result;
    ghost var writes;
    result, writes := WriteFile(server, temp, items, false, sha256);
    TouchedIsPublishing(server, before, files0, key, temp, items);
    if !result.Written? {
      RemovalConfined(server.files, files0, key, temp, items);
      var removed := server.RemoveFile(temp);
      return Err(Provider), writes + [Remove(temp)];
    }
    var renamed := RenameIntoPlace(server, key, temp, items, before, files0);
    RequestsJoin(old(server.log), writes, [Rename(temp, key), Close(temp)], if renamed then [] else [Remove(temp)], server.answers);
    if !renamed {
      return Err(Provider), writes + [Rename(temp, key), Close(temp), Remove(temp)];
    }
    return Ok(result.outcome), writes + [Rename(temp, key), Close(temp)];
  }

  /**
    `put_blob`: in every state passed through, and so after any failure or lost reply, the key holds
    what it held before or the whole new body; success means the new body is there.
   */
  method PutBlob(server: Server, key: string, items: seq<Item>, u: Uuid, sha256: Bytes -> string)
    returns (r: Result<WriteOutcome>, ghost requests: seq<Request>)
    modifies server
    ensures !ValidKey(key) ==> r == Err(InvalidStorageKey) && server.files == old(server.files)
    ensures r.Ok? ==>
              && !Breaks(items) && At(server.files, key) == Some(Readable(items))
              && r.value == WriteOutcome(Counted(|Readable(items)|), sha256(Readable(items)))
    ensures ValidKey(key) ==>
              && (r.Err? ==> r.error == Provider)
              && SmbTempKey(key, u).Ok?
              && Publishing(server, |old(server.seen)|, old(server.files), key, SmbTempKey(key, u).value, items)
              && (r.Ok? ==> SmbTempKey(key, u).value !in server.files)
    ensures r.Ok? <==> ValidKey(key) && !Breaks(items) && AllAccepted(server.answers, |old(server.log)|, |server.log|)
    ensures ValidKey(key) ==>
              && server.log == old(server.log) + requests && PublishRequests(requests, key, SmbTempKey(key, u).value, r.Ok?)
              && (r.Err? && server.answers(|server.log| - 1).Accepted? ==> SmbTempKey(key, u).value !in server.files)
    ensures !ValidKey(key) ==> server.log == old(server.log)
  {
    if !ValidKey(key) {
      return Err(InvalidStorageKey), [];
    }
    var temp := SmbTempKey(key, u);
    assert temp.Ok? && temp.value != key by {
      SmbTempKeyFacts(key, u);
    }
    r, requests := PublishThrough(server, key, temp.value, items, sha256);
  }

  /** `put_blob_if_not_exists`: an existing file is never changed, and success means the key was absent and now holds the body. */
  method PutBlobIfNotExists(server: Server, key: string, items: seq<Item>, sha256: Bytes -> string)
    returns (r: Result<Option<WriteOutcome>>, ghost requests: seq<Request>)
    modifies server
    ensures !ValidKey(key) ==> r == Err(InvalidStorageKey) && server.files == old(server.files) && server.log == old(server.log)
    ensures key in old(server.files) ==> server.files == old(server.files) && (r == Ok(None) || r.Err?)
    ensures r.Ok? && r.value.Some? ==>
              && key !in old(server.files) && !Breaks(items) && At(server.files, key) == Some(Readable(items))
              && r.value.value == WriteOutcome(Counted(|Readable(items)|), sha256(Readable(items)))
    ensures r == Ok(None) <==> ValidKey(key) && key in old(server.files) && server.answers(|old(server.log)|).Accepted?
    ensures r.Ok? && r.value.Some? <==>
              && ValidKey(key) && !Breaks(items) && key !in old(server.files)
              && AllAccepted(server.answers, |old(server.log)|, |server.log|)
    ensures SameBut(server.files, old(server.files), key)
    ensures ValidKey(key) && r.Err? ==> r.error == Provider
    ensures ValidKey(key) ==>
              && server.log == old(server.log) + requests
              && WriteRequests(requests, key, true, Opens(server, |old(server.log)|, true, key in old(server.files)), r.Ok? && r.value.Some?)
              && (r.Err? && Opens(server, |old(server.log)|, true, key in old(server.files)) && server.answers(|server.log| - 1).Accepted? ==>
                    key !in server.files)
  {
    if !ValidKey(key) {
      return Err(InvalidStorageKey), [];
    }
    var result;
    result, requests := WriteFile(server, key, items, true, sha256);
    match result {
      case Written(outcome) => return Ok(Some(outcome)), requests;
      case Refused => return Ok(None), requests;
      case Failed => return Err(Provider), requests;
    }
  }

  // ---- Reading ----

  /**
    How the server answers one `get_blob`: whether the file is opened and its size told, how many bytes each READ
    gives at most (None when there is no reply), and whether the handle is closed at the end.
   */
  datatype Replies = Replies(opens: bool, blocks: nat -> Option<nat>, closes: bool) {
    /** Every request is answered, and every READ gives at least one byte. */
    ghost predicate Sound() {
      opens && closes && forall k :: blocks(k).Some? && blocks(k).value > 0
    }
  }

  /** The bytes a READ of so many gives. */
  function Taken(reply: Option<nat>, asked: nat): nat {
    match reply
    case None => 0
    case Some(n) => Min(n, asked)
  }

  /** What the stream made by `get_blob` has still to yield at an offset, its next READ being the i-th. */
  function ToRead(file: Bytes, offset: nat, i: nat, replies: Replies): seq<Item>
    requires offset <= |file|
    decreases |file| - offset
  {
    if offset == |file| then if replies.closes then [] else [Broken]
    else
      var n := Taken(replies.blocks(i), Min(|file| - offset, READ_CHUNK_SIZE));
      if n == 0 then [Broken] else [Chunk(file[offset..offset + n])] + ToRead(file, offset + n, i + 1, replies)
  }

  /** All that a stream on this file yields. */
  function AllRead(file: Bytes, replies: Replies): seq<Item> {
    ToRead(file, 0, 0, replies)
  }

  /** The stream made by `get_blob` on a file that does not change: one poll per call. */
  class ReadStream {
    const file: Bytes
    const size: nat
    const replies: Replies
    var offset: nat
    var asked: nat
    var ended: bool

    ghost predicate Valid()
      reads this
    {
      size == |file| && offset <= size
    }

    /** What the stream has still to yield. */
    ghost function ToYield(): seq<Item>
      requires Valid()
      reads this
    {
      if ended then [] else ToRead(file, offset, asked, replies)
    }

    constructor (file: Bytes, replies: Replies)
      ensures Valid() && ToYield() == AllRead(file, replies)
    {
      this.file, size, this.replies, offset, asked, ended := file, |file|, replies, 0, 0, false;
    }

    /** READ: the server returns at most what was asked, or there is no reply. */
    method ReadBlock(length: nat) returns (read: Option<Bytes>)
      requires Valid() && offset + length <= size
      modifies this`asked
      ensures asked == old(asked) + 1
      ensures read.None? <==> replies.blocks(old(asked)).None?
      ensures read.Some? ==> read.value == file[offset..offset + Taken(replies.blocks(old(asked)), length)]
    {
      var reply := replies.blocks(asked);
      asked := asked + 1;
      read := if reply.Some? then Some(file[offset..offset + Min(reply.value, length)]) else None;
    }

    method Next() returns (r: Option<Item>)
      requires Valid()
      modifies this
      ensures Valid()
      ensures r.None? ==> old(ToYield()) == [] && ToYield() == []
      ensures r.Some? ==> old(ToYield()) == [r.value] + ToYield()
    {
      if ended {
        return None;
      }
      if offset >= size {
        ended := true;
        return if replies.closes then None else Some(Broken);
      }
      var chunkLen := Min(size - offset, READ_CHUNK_SIZE);
      var read := ReadBlock(chunkLen);
      if read.None? || |read.value| == 0 {
        ended := true;
        return Some(Broken);
      }
      offset := offset + |read.value|;
      return Some(Chunk(read.value));
    }
  }

  /** Polling the stream to its end. */
  method ReadAll(file: Bytes, replies: Replies) returns (items: seq<Item>)
    ensures items == AllRead(file, replies)
  {
    var stream := new ReadStream(file, replies);
    items := [];
    while true
      invariant stream.Valid() && fresh(stream)
      invariant items + stream.ToYield() == AllRead(file, replies)
      decreases |stream.ToYield()|
    {
      var next := stream.Next();
      if next.None? {
        return;
      }
      ConcatAssociative(items, [next.value], stream.ToYield());
      items := items + [next.value];
    }
  }

  // ---- What is read ----

  /** The offset that k READs lead to. */
  function Delivered(file: Bytes, blocks: nat -> Option<nat>, k: nat): (offset: nat)
    ensures offset <= |file|
  {
    if k == 0 then 0
    else
      var before := Delivered(file, blocks, k - 1);
      before + Taken(blocks(k - 1), Min(|file| - before, READ_CHUNK_SIZE))
  }

  lemma {:induction false} DeliveredGrows(file: Bytes, blocks: nat -> Option<nat>, j: nat, k: nat)
    requires j <= k
    ensures Delivered(file, blocks, j) <= Delivered(file, blocks, k)
    decreases k
  {
    if j < k {
      DeliveredGrows(file, blocks, j, k - 1);
    }
  }

  /** The k-th READ, made because bytes are missing, brings none. */
  predicate FailsAt(file: Bytes, blocks: nat -> Option<nat>, k: nat) {
    Delivered(file, blocks, k) < |file| && (blocks(k).None? || blocks(k).value == 0)
  }

  /** A READ that brings something yields one chunk. */
  lemma ReadStep(file: Bytes, replies: Replies, i: nat)
    requires Delivered(file, replies.blocks, i) < |file| && !FailsAt(file, replies.blocks, i)
    ensures var offset, next := Delivered(file, replies.blocks, i), Delivered(file, replies.blocks, i + 1);
            var items, rest := ToRead(file, offset, i, replies), ToRead(file, next, i + 1, replies);
            offset < next && Readable(items) == file[offset..next] + Readable(rest) && (Breaks(items) <==> Breaks(rest))
  {
    var offset, next := Delivered(file, replies.blocks, i), Delivered(file, replies.blocks, i + 1);
    var items, rest := ToRead(file, offset, i, replies), ToRead(file, next, i + 1, replies);
    assert next == offset + Taken(replies.blocks(i), Min(|file| - offset, READ_CHUNK_SIZE));
    assert items == [Chunk(file[offset..next])] + rest && items[1..] == rest;
    BreaksTail(items);
  }

  lemma Slices(file: Bytes, a: nat, b: nat, c: nat)
    requires a <= b <= c <= |file|
    ensures file[a..b] + file[b..c] == file[a..c]
  {
  }

  /** If a READ fails, the stream yields what the READs before the first failure brought, and an error. */
  lemma {:induction false} ReadStops(file: Bytes, replies: Replies, i: nat, k: nat)
    requires i <= k && FailsAt(file, replies.blocks, k) && forall j: nat | i <= j < k :: !FailsAt(file, replies.blocks, j)
    ensures Delivered(file, replies.blocks, i) <= Delivered(file, replies.blocks, k)
    ensures var offset, items := Delivered(file, replies.blocks, i), ToRead(file, Delivered(file, replies.blocks, i), i, replies);
            Breaks(items) && Readable(items) == file[offset..Delivered(file, replies.blocks, k)]
    decreases k - i
  {
    DeliveredGrows(file, replies.blocks, i, k);
    if i < k {
      ReadStep(file, replies, i);
      ReadStops(file, replies, i + 1, k);
      Slices(file, Delivered(file, replies.blocks, i), Delivered(file, replies.blocks, i + 1), Delivered(file, replies.blocks, k));
    } else {
      assert ToRead(file, Delivered(file, replies.blocks, i), i, replies)[0].Broken?;
    }
  }

  /** If no READ fails, the stream yields the whole file, and an error only if the handle cannot be closed. */
  lemma {:induction false} ReadsThrough(file: Bytes, replies: Replies, i: nat)
    requires forall j: nat | i <= j :: !FailsAt(file, replies.blocks, j)
    ensures var offset, items := Delivered(file, replies.blocks, i), ToRead(file, Delivered(file, replies.blocks, i), i, replies);
            Readable(items) == file[offset..|file|] && (Breaks(items) <==> !replies.closes)
    decreases |file| - Delivered(file, replies.blocks, i)
  {
    var offset := Delivered(file, replies.blocks, i);
    if offset < |file| {
      ReadStep(file, replies, i);
      ReadsThrough(file, replies, i + 1);
      Slices(file, offset, Delivered(file, replies.blocks, i + 1), |file|);
    } else if !replies.closes {
      assert ToRead(file, offset, i, replies)[0].Broken?;
    }
  }

  lemma {:induction false} FirstFailure(file: Bytes, blocks: nat -> Option<nat>, n: nat) returns (k: nat)
    requires exists j: nat :: j < n && FailsAt(file, blocks, j)
    ensures k < n && FailsAt(file, blocks, k) && forall j: nat | j < k :: !FailsAt(file, blocks, j)
  {
    if j: nat :| j < n - 1 && FailsAt(file, blocks, j) {
      k := FirstFailure(file, blocks, n - 1);
    } else {
      k := n - 1;
    }
  }

  /**
    The stream ends in an error exactly if some READ that is still needed brings nothing or the handle cannot be
    closed. Without a failing READ all bytes of the file are read; otherwise those before the first such READ.
   */
  lemma ReadBreaksIff(file: Bytes, replies: Replies)
    ensures Breaks(AllRead(file, replies)) <==> !replies.closes || exists k: nat :: FailsAt(file, replies.blocks, k)
    ensures (forall k: nat :: !FailsAt(file, replies.blocks, k)) ==> Readable(AllRead(file, replies)) == file
    ensures forall k: nat | FailsAt(file, replies.blocks, k) && (forall j: nat | j < k :: !FailsAt(file, replies.blocks, j)) ::
              Readable(AllRead(file, replies)) == file[..Delivered(file, replies.blocks, k)]
    ensures Readable(AllRead(file, replies)) <= file && (!Breaks(AllRead(file, replies)) ==> Readable(AllRead(file, replies)) == file)
  {
    assert Delivered(file, replies.blocks, 0) == 0 && file[0..|file|] == file;
    if n: nat :| FailsAt(file, replies.blocks, n) {
      var k := FirstFailure(file, replies.blocks, n + 1);
      ReadStops(file, replies, 0, k);
    } else {
      ReadsThrough(file, replies, 0);
    }
    forall k: nat | FailsAt(file, replies.blocks, k) && (forall j: nat | j < k :: !FailsAt(file, replies.blocks, j))
      ensures Readable(AllRead(file, replies)) == file[..Delivered(file, replies.blocks, k)]
    {
      ReadStops(file, replies, 0, k);
    }
  }

  /** What is read is a beginning of the file, and all of it when there is no error; there is none if the server answers. */
  lemma ReadIsPrefix(file: Bytes, replies: Replies)
    ensures Readable(AllRead(file, replies)) <= file
    ensures !Breaks(AllRead(file, replies)) ==> Readable(AllRead(file, replies)) == file
    ensures replies.Sound() ==> !Breaks(AllRead(file, replies))
  {
    ReadBreaksIff(file, replies);
  }

  /** For any positive short reads of a file that does not change, and a close that succeeds, the file is given back. */
  lemma SoundReadGivesFile(file: Bytes, replies: Replies)
    requires replies.Sound()
    ensures !Breaks(AllRead(file, replies)) && Readable(AllRead(file, replies)) == file
  {
    ReadIsPrefix(file, replies);
  }

  /** No chunk is empty, and none is longer than 256 KiB. */
  lemma {:induction false} ChunkSizes(file: Bytes, offset: nat, i: nat, replies: Replies)
    requires offset <= |file|
    ensures forall x | x in ToRead(file, offset, i, replies) && x.Chunk? :: 0 < |x.bytes| <= 262144
    decreases |file| - offset
  {
    if offset < |file| {
      var n := Taken(replies.blocks(i), Min(|file| - offset, READ_CHUNK_SIZE));
      if n > 0 {
        ChunkSizes(file, offset + n, i + 1, replies);
      }
    }
  }
}
