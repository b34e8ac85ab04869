/** The S3 writer: one put for a small body, a multipart upload of equal parts for a larger one. */
module S3Upload {
  import opened Wrappers
  import opened Sequences
  import opened ByteStrings
  import opened Streams

  const MULTIPART_PART_SIZE := 8 * 1024 * 1024

  datatype Request =
    | PutObject(body: Bytes)
    | CreateUpload
    | UploadPart(number: nat, body: Bytes)
    | CompleteUpload
    | AbortUpload

  // ---- The plan, as a function of the whole body ----

  /** Parts of exactly `size` bytes, the last one the rest. */
  function Parts(body: Bytes, size: nat): seq<Bytes>
    requires size > 0
    decreases |body|
  {
    if |body| <= size then [body] else [body[..size]] + Parts(body[size..], size)
  }

  /** Upload requests for these parts, numbered from `first`. */
  function PartRequests(parts: seq<Bytes>, first: nat): seq<Request> {
    if parts == [] then [] else [UploadPart(first, parts[0])] + PartRequests(parts[1..], first + 1)
  }

  /** All requests of a write that runs to its last request. */
  function Plan(body: Bytes, size: nat): seq<Request>
    requires size > 0
  {
    if |body| < size then [PutObject(body)]
    else [CreateUpload] + PartRequests(Parts(body, size), 1) + [CompleteUpload]
  }

  lemma {:induction false} PartsShape(body: Bytes, size: nat)
    requires size > 0 && body != []
    ensures var parts := Parts(body, size);
            && Flatten(parts) == body
            && (forall i | 0 <= i < |parts| - 1 :: |parts[i]| == size)
            && 0 < |parts[|parts| - 1]| <= size
            && (|parts| - 1) * size < |body| <= |parts| * size
    decreases |body|
  {
    var parts := Parts(body, size);
    if |body| <= size {
      FlattenOne(body);
    } else {
      var rest := body[size..];
      PartsShape(rest, size);
      assert parts[0] == body[..size] && parts[1..] == Parts(rest, size);
      var n := |Parts(rest, size)|;
      assert n * size + size == (n + 1) * size;
      assert (n - 1) * size + size == n * size;
    }
  }

  /** The number of parts is the total length divided by the part size, rounded up. */
  lemma PartCount(body: Bytes, size: nat)
    requires size > 0 && body != []
    ensures |Parts(body, size)| == (|body| + size - 1) / size
  {
    PartsShape(body, size);
    RoundUp(|body|, size, |Parts(body, size)|);
  }

  lemma RoundUp(total: nat, size: nat, n: nat)
    requires size > 0 && n > 0 && (n - 1) * size < total <= n * size
    ensures n == (total + size - 1) / size
  {
    var q := (total + size - 1) / size;
    var r := (total + size - 1) % size;
    assert q * size + r == total + size - 1;
    if q < n {
      assert (q + 1) * size <= n * size;
      Scale(q + 1, n, size);
    } else if q > n {
      Scale(n + 1, q, size);
    }
  }

  lemma Scale(a: nat, b: nat, size: nat)
    requires a <= b
    ensures a * size <= b * size
  {
  }

  /** Equal full parts followed by a shorter rest are the parts of their concatenation. */
  lemma {:induction false} PartsOfSent(sent: seq<Bytes>, rest: Bytes, size: nat)
    requires size > 0 && sent != [] && |rest| < size
    requires forall i | 0 <= i < |sent| :: |sent[i]| == size
    ensures Parts(Flatten(sent) + rest, size) == sent + (if rest == [] then [] else [rest])
  {
    var body, more := Flatten(sent) + rest, Flatten(sent[1..]) + rest;
    assert body == sent[0] + more;
    assert body[..size] == sent[0] && body[size..] == more;
    if |sent| > 1 {
      PartsOfSent(sent[1..], rest, size);
      assert sent[1] == sent[1..][0];
      assert Flatten(sent[1..]) == sent[1] + Flatten(sent[1..][1..]);
      assert |more| > 0;
      assert sent == [sent[0]] + sent[1..];
    } else {
      assert sent[1..] == [] && more == rest;
      assert sent == [sent[0]];
    }
  }

  lemma {:induction false} PartRequestsConcat(a: seq<Bytes>, b: Bytes, first: nat)
    ensures PartRequests(a + [b], first) == PartRequests(a, first) + [UploadPart(first + |a|, b)]
  {
    if a == [] {
      assert [b][1..] == [];
    } else {
      PartRequestsConcat(a[1..], b, first + 1);
      assert (a + [b])[0] == a[0] && (a + [b])[1..] == a[1..] + [b];
    }
  }

  /** Full parts cut from the front of a body are the first of its parts. */
  lemma {:induction false} PartsBegin(sent: seq<Bytes>, body: Bytes, size: nat)
    requires size > 0 && body != [] && Flatten(sent) <= body
    requires forall i | 0 <= i < |sent| :: |sent[i]| == size
    ensures sent <= Parts(body, size)
  {
    if sent != [] {
      var rest := Flatten(sent[1..]);
      assert Flatten(sent) == sent[0] + rest;
      assert sent[0] == body[..size] && rest == body[size..|Flatten(sent)|];
      if |sent| == 1 {
        assert body[..size] == Parts(body, size)[0];
        assert sent == [sent[0]];
      } else {
        assert rest == sent[1] + Flatten(sent[1..][1..]);
        PartsBegin(sent[1..], body[size..], size);
        assert sent == [sent[0]] + sent[1..];
      }
    }
  }

  lemma {:induction false} PartRequestsBegin(a: seq<Bytes>, b: seq<Bytes>, first: nat)
    requires a <= b
    ensures PartRequests(a, first) <= PartRequests(b, first)
  {
    if a != [] {
      PartRequestsBegin(a[1..], b[1..], first + 1);
    }
  }

  /** The requests that send full parts cut from the front of a body begin its plan. */
  lemma PlanBegins(sent: seq<Bytes>, body: Bytes, size: nat)
    requires size > 0 && |body| >= size && Flatten(sent) <= body
    requires forall i | 0 <= i < |sent| :: |sent[i]| == size
    ensures [CreateUpload] + PartRequests(sent, 1) <= Plan(body, size)
  {
    PartsBegin(sent, body, size);
    PartRequestsBegin(sent, Parts(body, size), 1);
  }

  /** The whole parts that a body that breaks off has given. */
  function FullParts(body: Bytes, size: nat): seq<Bytes>
    requires size > 0
    decreases |body|
  {
    if |body| < size then [] else [body[..size]] + FullParts(body[size..], size)
  }

  /** The requests of a write that meets no failure: all of the plan, or the part of it that a stream that breaks gets to. */
  function Due(body: Bytes, size: nat, broken: bool): seq<Request>
    requires size > 0
  {
    if !broken then Plan(body, size)
    else if |body| < size then []
    else [CreateUpload] + PartRequests(FullParts(body, size), 1)
  }

  lemma {:induction false} FullPartsAre(sent: seq<Bytes>, rest: Bytes, size: nat)
    requires size > 0 && |rest| < size && forall i | 0 <= i < |sent| :: |sent[i]| == size
    ensures FullParts(Flatten(sent) + rest, size) == sent
  {
    if sent != [] {
      var body, more := Flatten(sent) + rest, Flatten(sent[1..]) + rest;
      assert body == sent[0] + more;
      assert body[..size] == sent[0] && body[size..] == more;
      FullPartsAre(sent[1..], rest, size);
      assert sent == [sent[0]] + sent[1..];
    } else {
      assert Flatten(sent) + rest == rest;
    }
  }

  lemma {:induction false} FullPartsBegin(sent: seq<Bytes>, body: Bytes, size: nat)
    requires size > 0 && Flatten(sent) <= body && forall i | 0 <= i < |sent| :: |sent[i]| == size
    ensures sent <= FullParts(body, size)
  {
    if sent != [] {
      var rest := Flatten(sent[1..]);
      assert Flatten(sent) == sent[0] + rest;
      assert sent[0] == body[..size] && rest == body[size..|Flatten(sent)|];
      FullPartsBegin(sent[1..], body[size..], size);
      assert sent == [sent[0]] + sent[1..];
    }
  }

  /** The whole parts are the first of all parts. */
  lemma FullPartsFirst(body: Bytes, size: nat)
    requires size > 0 && |body| >= size
    ensures |FullParts(body, size)| > 0 && Due(body, size, true) <= Due(body, size, false)
    ensures forall i | 0 <= i < |FullParts(body, size)| :: |FullParts(body, size)[i]| == size
  {
    FullPartsFlat(body, size);
    PlanBegins(FullParts(body, size), body, size);
  }

  lemma {:induction false} FullPartsFlat(body: Bytes, size: nat)
    requires size > 0
    ensures Flatten(FullParts(body, size)) <= body
    ensures forall i | 0 <= i < |FullParts(body, size)| :: |FullParts(body, size)[i]| == size
    decreases |body|
  {
    if |body| >= size {
      FullPartsFlat(body[size..], size);
      assert FullParts(body, size)[1..] == FullParts(body[size..], size);
      assert body == body[..size] + body[size..];
    }
  }

  /** A body below the part size is one put; a larger one is an upload of its parts, numbered from 1, in order. */
  lemma PlanShape(body: Bytes, size: nat)
    requires size > 0
    ensures |body| < size ==> Plan(body, size) == [PutObject(body)]
    ensures |body| >= size ==>
              var plan, parts := Plan(body, size), Parts(body, size);
              && |plan| == |parts| + 2 && plan[0] == CreateUpload && plan[|plan| - 1] == CompleteUpload
              && forall i | 1 <= i <= |parts| :: plan[i] == UploadPart(i, parts[i - 1])
  {
    if |body| >= size {
      UploadShape(Parts(body, size));
    }
  }

  lemma UploadShape(parts: seq<Bytes>)
    ensures var plan := [CreateUpload] + PartRequests(parts, 1) + [CompleteUpload];
            && |plan| == |parts| + 2 && plan[0] == CreateUpload && plan[|plan| - 1] == CompleteUpload
            && forall i | 1 <= i <= |parts| :: plan[i] == UploadPart(i, parts[i - 1])
  {
    var requests := PartRequests(parts, 1);
    RequestsLength(parts, 1);
    var plan := [CreateUpload] + requests + [CompleteUpload];
    forall i | 1 <= i <= |parts|
      ensures plan[i] == UploadPart(i, parts[i - 1])
    {
      assert plan[i] == requests[i - 1];
    }
  }

  // ---- The writer against a server ----

  datatype Reply = Done | AlreadyExists | NoReply

  /**
    How the server answers a request. An accepted one has its effect, or is refused for an object that exists; one that
    is rejected otherwise has none; one that is not answered may have had it.
   */
  datatype Answer = Accepted | Rejected | Unanswered(applied: bool) {
    predicate Effective() { Accepted? || (Unanswered? && applied) }
  }

  /** These answers, from the first to before the last, are all of acceptance. */
  ghost predicate AllAccepted(answers: nat -> Answer, first: nat, last: int) {
    forall i | first <= i < last :: answers(i).Accepted?
  }

  /** One key of a bucket, the requests the writer has sent, and the answer to each from the first on. */
  class Server {
    const answers: nat -> Answer
    var stored: Option<Bytes>
    var requests: seq<Request>
    var parts: seq<Bytes>

    constructor (initial: Option<Bytes>, answers: nat -> Answer)
      ensures stored == initial && requests == [] && parts == [] && this.answers == answers
    {
      this.stored, requests, parts, this.answers := initial, [], [], answers;
    }

    method Create() returns (ok: bool)
      modifies this
      ensures stored == old(stored) && requests == old(requests) + [CreateUpload] && parts == []
      ensures ok <==> answers(|old(requests)|).Accepted?
    {
      ok := answers(|requests|).Accepted?;
      requests, parts := requests + [CreateUpload], [];
    }

    method Upload(number: nat, body: Bytes) returns (ok: bool)
      modifies this
      ensures stored == old(stored) && requests == old(requests) + [UploadPart(number, body)]
      ensures ok <==> answers(|old(requests)|).Accepted?
      ensures ok ==> parts == old(parts) + [body]
    {
      var answer := answers(|requests|);
      requests := requests + [UploadPart(number, body)];
      ok := answer.Accepted?;
      if answer.Effective() {
        parts := parts + [body];
      }
    }

    /** Replaces the object by `body`, at once and whole, unless told to refuse an existing one. */
    method Install(body: Bytes, ifNotExists: bool, answer: Answer) returns (reply: Reply)
      modifies this`stored
      ensures reply == ReplyTo(answer, ifNotExists, old(stored))
      ensures stored == StoredBy(answer, ifNotExists, old(stored), body)
    {
      if ifNotExists && stored.Some? {
        return if answer.Accepted? then AlreadyExists else NoReply;
      }
      if answer.Effective() {
        stored := Some(body);
      }
      return if answer.Accepted? then Done else NoReply;
    }

    method Put(body: Bytes, ifNotExists: bool) returns (reply: Reply)
      modifies this
      ensures requests == old(requests) + [PutObject(body)]
      ensures reply == ReplyTo(answers(|old(requests)|), ifNotExists, old(stored))
      ensures stored == StoredBy(answers(|old(requests)|), ifNotExists, old(stored), body)
    {
      var answer := answers(|requests|);
      requests := requests + [PutObject(body)];
      reply := Install(body, ifNotExists, answer);
    }

    /** The server joins the parts; without a reply of success the writer asks to abort. */
    method Complete(ifNotExists: bool) returns (reply: Reply)
      modifies this
      ensures requests == old(requests) + [CompleteUpload] + if reply == Done then [] else [AbortUpload]
      ensures reply == ReplyTo(answers(|old(requests)|), ifNotExists, old(stored))
      ensures stored == StoredBy(answers(|old(requests)|), ifNotExists, old(stored), Flatten(old(parts)))
    {
      var answer := answers(|requests|);
      requests := requests + [CompleteUpload];
      reply := Install(Flatten(parts), ifNotExists, answer);
      if reply != Done {
        requests := requests + [AbortUpload];
      }
    }
  }

  /** The reply to the request that decides a write, when this was stored before. */
  function ReplyTo(answer: Answer, ifNotExists: bool, before: Option<Bytes>): Reply {
    if !answer.Accepted? then NoReply else if ifNotExists && before.Some? then AlreadyExists else Done
  }

  /** What is stored after that request. */
  function StoredBy(answer: Answer, ifNotExists: bool, before: Option<Bytes>, body: Bytes): Option<Bytes> {
    if answer.Effective() && !(ifNotExists && before.Some?) then Some(body) else before
  }

  /** The requests that open an upload and send these parts; none when there are none. */
  function UploadRequests(sent: seq<Bytes>): seq<Request> {
    if sent == [] then [] else [CreateUpload] + PartRequests(sent, 1)
  }

  /** What the writer has uploaded so far: full parts only, by requests that were all accepted. */
  ghost predicate Uploaded(server: Server, sent: seq<Bytes>, size: nat)
    reads server
  {
    && (forall i | 0 <= i < |sent| :: |sent[i]| == size)
    && server.requests == UploadRequests(sent) && (sent != [] ==> server.parts == sent)
    && AllAccepted(server.answers, 0, |server.requests|)
  }

  /** The last of these requests is the first that was not accepted. */
  ghost predicate StoppedAt(requests: seq<Request>, answers: nat -> Answer) {
    requests != [] && AllAccepted(answers, 0, |requests| - 1) && !answers(|requests| - 1).Accepted?
  }

  /** The upload has been asked for and these full parts, cut from the front of the body, have been sent; the last request failed. */
  ghost predicate GaveUp(server: Server, tried: seq<Bytes>, body: Bytes, size: nat)
    reads server
  {
    && (forall i | 0 <= i < |tried| :: |tried[i]| == size) && Flatten(tried) <= body && |body| >= size
    && server.requests == [CreateUpload] + PartRequests(tried, 1) && StoppedAt(server.requests, server.answers)
  }

  /** No request so far ends an upload one way or the other. */
  ghost predicate Unended(requests: seq<Request>) {
    CompleteUpload !in requests && AbortUpload !in requests
  }

  /** An upload has been asked for, and neither its completion nor its abort. */
  ghost predicate LeftOpen(requests: seq<Request>) {
    CreateUpload in requests && Unended(requests)
  }

  lemma {:induction false} PartsUnended(parts: seq<Bytes>, first: nat)
    ensures Unended(PartRequests(parts, first)) && LeftOpen([CreateUpload] + PartRequests(parts, first))
    ensures CreateUpload !in PartRequests(parts, first)
  {
    if parts != [] {
      PartsUnended(parts[1..], first + 1);
    }
  }

  lemma OnlyOpened(server: Server, body: Bytes, size: nat)
    requires |body| >= size && server.requests == [CreateUpload] && !server.answers(0).Accepted?
    ensures GaveUp(server, [], body, size)
  {
  }

  lemma PartFailed(server: Server, tried: seq<Bytes>, rest: Bytes, body: Bytes, size: nat)
    requires tried != [] && (forall i | 0 <= i < |tried| :: |tried[i]| == size) && Flatten(tried) + rest == body
    requires server.requests == [CreateUpload] + PartRequests(tried, 1) && StoppedAt(server.requests, server.answers)
    ensures GaveUp(server, tried, body, size)
  {
    assert |Flatten(tried)| >= |tried[0]|;
  }

  /** One turn of the inner loop of `put_blob_inner`: open the upload if this is its first part, then send the part. */
  method SendFullPart(server: Server, sent: seq<Bytes>, part: Bytes, ghost rest: Bytes, size: nat) returns (ok: bool, ghost tried: seq<Bytes>)
    requires size > 0 && |part| == size && Uploaded(server, sent, size)
    modifies server
    ensures server.stored == old(server.stored)
    ensures ok ==> Uploaded(server, sent + [part], size)
    ensures !ok ==> GaveUp(server, tried, Flatten(sent) + (part + rest), size)
  {
    MovePart(sent, part, rest);
    PartRequestsConcat(sent, part, 1);
    tried := [];
    if sent == [] {
      var created := server.Create();
      if !created {
        OnlyOpened(server, Flatten(sent) + (part + rest), size);
        return false, tried;
      }
    }
    tried := sent + [part];
    ok := server.Upload(|sent| + 1, part);
    if !ok {
      PartFailed(server, tried, rest, Flatten(sent) + (part + rest), size);
    }
  }

  /** The inner loop of `put_blob_inner`: send full parts while the buffer holds one. */
  method SendFullParts(server: Server, buffer0: Bytes, sent0: seq<Bytes>, size: nat)
    returns (ok: bool, buffer: Bytes, sent: seq<Bytes>, ghost tried: seq<Bytes>)
    requires size > 0 && Uploaded(server, sent0, size)
    modifies server
    ensures server.stored == old(server.stored)
    ensures ok ==> Uploaded(server, sent, size) && |buffer| < size && Flatten(sent) + buffer == Flatten(sent0) + buffer0
    ensures !ok ==> GaveUp(server, tried, Flatten(sent0) + buffer0, size)
  {
    buffer, sent, tried := buffer0, sent0, [];
    while |buffer| >= size
      invariant server.stored == old(server.stored) && Uploaded(server, sent, size)
      invariant Flatten(sent) + buffer == Flatten(sent0) + buffer0
      decreases |buffer|
    {
      var part := buffer[..size];
      assert part + buffer[size..] == buffer;
      MovePart(sent, part, buffer[size..]);
      var uploaded;
      uploaded, tried := SendFullPart(server, sent, part, buffer[size..], size);
      if !uploaded {
        return false, buffer, sent, tried;
      }
      buffer, sent := buffer[size..], sent + [part];
    }
    return true, buffer, sent, tried;
  }

  lemma MovePart(sent: seq<Bytes>, part: Bytes, rest: Bytes)
    ensures Flatten(sent + [part]) + rest == Flatten(sent) + (part + rest)
  {
    FlattenConcat(sent, [part]);
    FlattenOne(part);
  }

  // ---- How a write ends ----

  /** The requests sent of those due: as many as are accepted, and the first that is not. */
  ghost predicate Ran(requests: seq<Request>, due: seq<Request>, answers: nat -> Answer) {
    requests <= due && if AllAccepted(answers, 0, |due|) then requests == due else StoppedAt(requests, answers)
  }

  /** Everything before the deciding request was accepted. */
  ghost predicate Decides(answers: nat -> Answer, plan: seq<Request>) {
    AllAccepted(answers, 0, |plan| - 1)
  }

  /**
    The requests of a write that has ended: those due, as far as they were accepted; if the completion of an upload
    was not answered by success, an abort after it.
   */
  ghost predicate Ended(requests: seq<Request>, body: Bytes, size: nat, broken: bool, answers: nat -> Answer, refused: bool)
    requires size > 0
  {
    var plan := Plan(body, size);
    if !broken && |body| >= size && Decides(answers, plan) && (refused || !answers(|plan| - 1).Accepted?)
    then requests == plan + [AbortUpload]
    else Ran(requests, Due(body, size, broken), answers)
  }

  lemma GivenUp(server: Server, tried: seq<Bytes>, body: Bytes, all: Bytes, size: nat, broken: bool, refused: bool)
    requires size > 0 && GaveUp(server, tried, body, size) && body <= all
    ensures Ended(server.requests, all, size, broken, server.answers, refused)
    ensures !Decides(server.answers, Plan(all, size)) && !AllAccepted(server.answers, 0, |Due(all, size, broken)|)
  {
    PlanBegins(tried, all, size);
    FullPartsBegin(tried, all, size);
    PartRequestsBegin(tried, FullParts(all, size), 1);
    PartsUnended(tried, 1);
    NotCompleted(server.requests, all, size);
  }

  /** A beginning of the plan of an upload that holds no completion lacks the last request. */
  lemma NotCompleted(requests: seq<Request>, body: Bytes, size: nat)
    requires size > 0 && |body| >= size && requests <= Plan(body, size) && CompleteUpload !in requests
    ensures |requests| < |Plan(body, size)|
  {
    var plan := Plan(body, size);
    assert plan[|plan| - 1] == CompleteUpload;
  }

  /** A stream that breaks while all requests are accepted has sent all that was due. */
  lemma BrokenOff(server: Server, sent: seq<Bytes>, buffer: Bytes, size: nat)
    requires size > 0 && |buffer| < size && Uploaded(server, sent, size)
    ensures server.requests == Due(Flatten(sent) + buffer, size, true)
  {
    FullPartsAre(sent, buffer, size);
    if sent != [] {
      assert Flatten(sent) == sent[0] + Flatten(sent[1..]);
    }
  }

  lemma AllAcceptedLast(answers: nat -> Answer, n: nat)
    requires n > 0
    ensures AllAccepted(answers, 0, n) <==> AllAccepted(answers, 0, n - 1) && answers(n - 1).Accepted?
  {
  }

  /** The rest of a large body, if any, as the last part; then all requests but the completion have been sent. */
  method SendLastPart(server: Server, sent: seq<Bytes>, buffer: Bytes, size: nat) returns (ok: bool)
    requires size > 0 && |buffer| < size && sent != [] && Uploaded(server, sent, size)
    modifies server
    ensures server.stored == old(server.stored) && |Flatten(sent) + buffer| >= size
    ensures server.requests + [CompleteUpload] == Plan(Flatten(sent) + buffer, size)
    ensures ok <==> AllAccepted(server.answers, 0, |server.requests|)
    ensures ok ==> Flatten(server.parts) == Flatten(sent) + buffer
    ensures !ok ==> StoppedAt(server.requests, server.answers)
  {
    PartsOfSent(sent, buffer, size);
    assert |Flatten(sent) + buffer| >= |sent[0]| by {
      assert Flatten(sent) == sent[0] + Flatten(sent[1..]);
    }
    if buffer == [] {
      assert Flatten(sent) + buffer == Flatten(sent) && sent + [] == sent;
      return true;
    }
    PartRequestsConcat(sent, buffer, 1);
    FlattenConcat(sent, [buffer]);
    FlattenOne(buffer);
    ok := server.Upload(|sent| + 1, buffer);
  }

  /** The end of `put_blob_inner`: complete the upload with what is left, or put the whole small body. */
  method SendRest(server: Server, sent: seq<Bytes>, buffer: Bytes, ifNotExists: bool, size: nat) returns (reply: Reply)
    requires size > 0 && |buffer| < size && Uploaded(server, sent, size)
    modifies server
    ensures Ended(server.requests, Flatten(sent) + buffer, size, false, server.answers, ifNotExists && old(server.stored).Some?)
    ensures var plan := Plan(Flatten(sent) + buffer, size);
            if Decides(server.answers, plan) then
              && reply == ReplyTo(server.answers(|plan| - 1), ifNotExists, old(server.stored))
              && server.stored == StoredBy(server.answers(|plan| - 1), ifNotExists, old(server.stored), Flatten(sent) + buffer)
            else reply == NoReply && server.stored == old(server.stored)
  {
    ghost var body := Flatten(sent) + buffer;
    if sent == [] {
      assert body == buffer;
      reply := server.Put(buffer, ifNotExists);
      return;
    }
    var sentAll := SendLastPart(server, sent, buffer, size);
    ghost var requests, plan := server.requests, Plan(body, size);
    assert |plan| == |requests| + 1;
    if !sentAll {
      StoppedBeforeCompletion(requests, plan, server.answers);
      return NoReply;
    }
    reply := server.Complete(ifNotExists);
    assert requests + [CompleteUpload] + [AbortUpload] == plan + [AbortUpload];
    AllAcceptedLast(server.answers, |plan|);
  }

  lemma StoppedBeforeCompletion(requests: seq<Request>, plan: seq<Request>, answers: nat -> Answer)
    requires requests + [CompleteUpload] == plan && StoppedAt(requests, answers)
    ensures Ran(requests, plan, answers) && !Decides(answers, plan)
  {
  }

  /** The write is conditional and finds something there. */
  predicate Collides(ifNotExists: bool, before: Option<Bytes>) {
    ifNotExists && before.Some?
  }

  /** What is stored when a write has ended: the whole body if the deciding request was reached and took effect. */
  ghost function StoredAfter(items: seq<Item>, size: nat, answers: nat -> Answer, ifNotExists: bool, before: Option<Bytes>): Option<Bytes>
    requires size > 0
  {
    var plan := Plan(Readable(items), size);
    if !Breaks(items) && Decides(answers, plan) then StoredBy(answers(|plan| - 1), ifNotExists, before, Readable(items))
    else before
  }

  /** Every request that is due is accepted. */
  ghost predicate AllServed(items: seq<Item>, size: nat, answers: nat -> Answer)
    requires size > 0
  {
    AllAccepted(answers, 0, |Due(Readable(items), size, Breaks(items))|)
  }

  lemma PlanNotEmpty(body: Bytes, size: nat)
    requires size > 0
    ensures |Plan(body, size)| > 0
  {
  }

  /** When the stream does not break, the deciding request has the last word. */
  lemma Decided(items: seq<Item>, size: nat, answers: nat -> Answer, ifNotExists: bool, before: Option<Bytes>)
    requires size > 0 && !Breaks(items)
    ensures |Plan(Readable(items), size)| > 0
    ensures var plan := Plan(Readable(items), size);
            && (AllServed(items, size, answers) <==> Decides(answers, plan) && answers(|plan| - 1).Accepted?)
            && (Decides(answers, plan) ==> (answers(|plan| - 1).Accepted? <==> ReplyTo(answers(|plan| - 1), ifNotExists, before) != NoReply))
  {
    PlanNotEmpty(Readable(items), size);
    AllAcceptedLast(answers, |Plan(Readable(items), size)|);
  }

  lemma RanInFull(requests: seq<Request>, body: Bytes, size: nat, broken: bool, answers: nat -> Answer, refused: bool)
    requires size > 0 && broken && requests == Due(body, size, broken) && AllAccepted(answers, 0, |requests|)
    ensures Ended(requests, body, size, broken, answers, refused)
  {
  }

  /** The first i items have been read: all whole parts of them are uploaded, and the buffer holds the rest. */
  ghost predicate Fed(server: Server, items: seq<Item>, i: nat, hashed: Bytes, sent: seq<Bytes>, buffer: Bytes, size: nat)
    requires i <= |items|
    reads server
  {
    && !Breaks(items[..i]) && hashed == Readable(items[..i]) == Flatten(sent) + buffer
    && |buffer| < size && Uploaded(server, sent, size)
  }

  lemma ReadableBegins(items: seq<Item>, i: nat)
    requires i <= |items| && !Breaks(items[..i])
    ensures Readable(items[..i]) <= Readable(items)
    ensures i < |items| && items[i].Broken? ==> Readable(items[..i]) == Readable(items) && Breaks(items)
  {
    ReadableConcat(items[..i], items[i..]);
    assert items == items[..i] + items[i..];
  }

  /** Where the stream breaks, all that is due has been requested. */
  lemma BrokenAt(server: Server, items: seq<Item>, i: nat, hashed: Bytes, sent: seq<Bytes>, buffer: Bytes, size: nat, refused: bool)
    requires size > 0 && i < |items| && items[i].Broken? && Fed(server, items, i, hashed, sent, buffer, size)
    ensures Breaks(items) && AllServed(items, size, server.answers)
    ensures Ended(server.requests, Readable(items), size, true, server.answers, refused)
  {
    ReadableBegins(items, i);
    BrokenOff(server, sent, buffer, size);
    RanInFull(server.requests, Readable(items), size, true, server.answers, refused);
  }

  /** Where a request is not accepted, the write is not served. */
  lemma GivenUpAt(server: Server, items: seq<Item>, i: nat, tried: seq<Bytes>, size: nat, ifNotExists: bool, before: Option<Bytes>)
    requires size > 0 && i <= |items| && !Breaks(items[..i]) && GaveUp(server, tried, Readable(items[..i]), size)
    ensures !AllServed(items, size, server.answers) && StoredAfter(items, size, server.answers, ifNotExists, before) == before
    ensures Ended(server.requests, Readable(items), size, Breaks(items), server.answers, Collides(ifNotExists, before))
  {
    ReadableBegins(items, i);
    GivenUp(server, tried, Readable(items[..i]), Readable(items), size, Breaks(items), Collides(ifNotExists, before));
  }

  lemma ChunkFed(items: seq<Item>, i: nat, hashed: Bytes, sent: seq<Bytes>, buffer: Bytes)
    requires i < |items| && items[i].Chunk? && !Breaks(items[..i]) && hashed == Readable(items[..i]) == Flatten(sent) + buffer
    ensures !Breaks(items[..i + 1]) && hashed + items[i].bytes == Readable(items[..i + 1]) == Flatten(sent) + (buffer + items[i].bytes)
  {
    ReadableStep(items, i);
    ConcatAssociative(Flatten(sent), buffer, items[i].bytes);
  }

  /** What `put_blob_inner` does once the stream has ended. */
  method FinishBlob(server: Server, ghost items: seq<Item>, ifNotExists: bool, size: nat,
                    outcome: WriteOutcome, ghost hashed: Bytes, sent: seq<Bytes>, buffer: Bytes) returns (r: Result<Option<WriteOutcome>>)
    requires size > 0 && Fed(server, items, |items|, hashed, sent, buffer, size)
    modifies server
    ensures !Breaks(items)
    ensures r.Ok? && r.value.Some? <==> AllServed(items, size, server.answers) && !Collides(ifNotExists, old(server.stored))
    ensures r == Ok(None) <==> AllServed(items, size, server.answers) && Collides(ifNotExists, old(server.stored))
    ensures r.Err? ==> r.error == Provider
    ensures r.Ok? && r.value.Some? ==> r.value.value == outcome
    ensures server.stored == StoredAfter(items, size, server.answers, ifNotExists, old(server.stored))
    ensures Ended(server.requests, Readable(items), size, false, server.answers, Collides(ifNotExists, old(server.stored)))
  {
    assert items[..|items|] == items;
    ghost var before := server.stored;
    var reply := SendRest(server, sent, buffer, ifNotExists, size);
    Decided(items, size, server.answers, ifNotExists, before);
    match reply {
      case Done => return Ok(Some(outcome));
      case AlreadyExists => return Ok(None);
      case NoReply => return Err(Provider);
    }
  }

  /** `put_blob_inner`; the digest is a parameter. */
  method PutBlobInner(server: Server, items: seq<Item>, ifNotExists: bool, size: nat, sha256: Bytes -> string)
    returns (r: Result<Option<WriteOutcome>>)
    requires size > 0 && server.requests == []
    modifies server
    // success, refusal and the stream's own error come exactly if all requests due are accepted; any other error is the provider's
    ensures r.Ok? && r.value.Some? <==> AllServed(items, size, server.answers) && !Breaks(items) && !Collides(ifNotExists, old(server.stored))
    ensures r == Ok(None) <==> AllServed(items, size, server.answers) && !Breaks(items) && Collides(ifNotExists, old(server.stored))
    ensures r == Err(Io) <==> AllServed(items, size, server.answers) && Breaks(items)
    ensures r.Err? ==> r.error in {Io, Provider}
    ensures r.Ok? && r.value.Some? ==> r.value.value == WriteOutcome(Counted(|Readable(items)|), sha256(Readable(items)))
    // what is stored, and what has been requested
    ensures server.stored == StoredAfter(items, size, server.answers, ifNotExists, old(server.stored))
    ensures Ended(server.requests, Readable(items), size, Breaks(items), server.answers, Collides(ifNotExists, old(server.stored)))
  {
    var buffer: Bytes := [];
    var hashed: Bytes := [];
    var sizeBytes := 0;
    var sent: seq<Bytes> := [];
    var i := 0;
    while i < |items|
      invariant 0 <= i <= |items| && server.stored == old(server.stored)
      invariant Fed(server, items, i, hashed, sent, buffer, size) && sizeBytes == Counted(|hashed|)
    {
      if items[i].Broken? {
        BrokenAt(server, items, i, hashed, sent, buffer, size, Collides(ifNotExists, old(server.stored)));
        return Err(Io);
      }
      var chunk := items[i].bytes;
      ChunkFed(items, i, hashed, sent, buffer);
      sizeBytes := SaturatingAdd(sizeBytes, |chunk|);
      hashed := hashed + chunk;
      var ok;
      ghost var tried;
      ok, buffer, sent, tried := SendFullParts(server, buffer + chunk, sent, size);
      if !ok {
        GivenUpAt(server, items, i + 1, tried, size, ifNotExists, old(server.stored));
        return Err(Provider);
      }
      i := i + 1;
    }
    r := FinishBlob(server, items, ifNotExists, size, WriteOutcome(sizeBytes, sha256(hashed)), hashed, sent, buffer);
    assert items[..i] == items;
  }

  /**
    `put_blob`: the unconditional write, in parts of 8 MiB. It succeeds exactly if the stream does not break and every
    planned request is accepted, and is never refused.
   */
  method PutBlob(server: Server, items: seq<Item>, sha256: Bytes -> string) returns (r: Result<WriteOutcome>)
    requires server.requests == []
    modifies server
    ensures r.Ok? <==> AllServed(items, 8388608, server.answers) && !Breaks(items)
    ensures r.Ok? ==> r.value == WriteOutcome(Counted(|Readable(items)|), sha256(Readable(items)))
    ensures r.Err? ==> r.error in {Io, Provider}
    ensures server.stored == StoredAfter(items, 8388608, server.answers, false, old(server.stored))
    ensures Ended(server.requests, Readable(items), 8388608, Breaks(items), server.answers, false)
  {
    var inner := PutBlobInner(server, items, false, MULTIPART_PART_SIZE, sha256);
    match inner {
      case Err(e) => return Err(e);
      case Ok(None) => return Err(PreconditionFailed);
      case Ok(Some(outcome)) => return Ok(outcome);
    }
  }

  // ---- What the end of a write means ----

  /**
    When all requests due are accepted and the stream does not break, the requests are the plan, and the whole body is
    stored; if something is in the way of a conditional write, it stays, and an upload is aborted.
   */
  lemma ServedInFull(requests: seq<Request>, items: seq<Item>, size: nat, answers: nat -> Answer, ifNotExists: bool, before: Option<Bytes>)
    requires size > 0 && !Breaks(items) && AllServed(items, size, answers)
    requires Ended(requests, Readable(items), size, false, answers, Collides(ifNotExists, before))
    ensures var plan, stored := Plan(Readable(items), size), StoredAfter(items, size, answers, ifNotExists, before);
            if !Collides(ifNotExists, before) then requests == plan && stored == Some(Readable(items))
            else requests == plan + (if |Readable(items)| < size then [] else [AbortUpload]) && stored == before
  {
    PlanNotEmpty(Readable(items), size);
    AllAcceptedLast(answers, |Plan(Readable(items), size)|);
  }

  /** Whatever fails, the object is what it was, or the whole body; a stream that breaks stores nothing. */
  lemma StoredIsOldOrWhole(items: seq<Item>, size: nat, answers: nat -> Answer, ifNotExists: bool, before: Option<Bytes>)
    requires size > 0
    ensures var stored := StoredAfter(items, size, answers, ifNotExists, before);
            stored == before || (stored == Some(Readable(items)) && !Breaks(items) && !Collides(ifNotExists, before))
  {
  }

  lemma {:induction false} UploadUnended(requests: seq<Request>, body: Bytes, size: nat)
    requires size > 0 && |body| >= size && requests <= Plan(body, size) && |requests| < |Plan(body, size)|
    ensures Unended(requests) && (requests != [] ==> LeftOpen(requests))
  {
    var first := [CreateUpload] + PartRequests(Parts(body, size), 1);
    PartsUnended(Parts(body, size), 1);
    assert Plan(body, size) == first + [CompleteUpload];
    assert requests <= first;
    assert forall x | x in requests :: x in first;
    if requests != [] {
      assert requests[0] == CreateUpload;
    }
  }

  /**
    Of a write that has ended: an upload was asked for exactly if a whole part was read. It is left open, neither
    completed nor aborted, exactly if then the stream broke or one of the requests before the completion was not
    accepted. It is aborted exactly if its completion was sent and not answered by success.
   */
  lemma LeftOpenIff(requests: seq<Request>, body: Bytes, size: nat, broken: bool, answers: nat -> Answer, refused: bool)
    requires size > 0 && Ended(requests, body, size, broken, answers, refused)
    ensures CreateUpload in requests <==> |body| >= size
    ensures LeftOpen(requests) <==> |body| >= size && (broken || !Decides(answers, Plan(body, size)))
    ensures AbortUpload in requests <==>
              && |body| >= size && !broken && Decides(answers, Plan(body, size))
              && (refused || !answers(|Plan(body, size)| - 1).Accepted?)
  {
    if |body| >= size {
      UploadLeftOpenIff(requests, body, size, broken, answers, refused);
    } else {
      assert requests <= [PutObject(body)];
    }
  }

  lemma UploadLeftOpenIff(requests: seq<Request>, body: Bytes, size: nat, broken: bool, answers: nat -> Answer, refused: bool)
    requires size > 0 && |body| >= size && Ended(requests, body, size, broken, answers, refused)
    ensures CreateUpload in requests && (LeftOpen(requests) <==> broken || !Decides(answers, Plan(body, size)))
    ensures AbortUpload in requests <==>
              !broken && Decides(answers, Plan(body, size)) && (refused || !answers(|Plan(body, size)| - 1).Accepted?)
  {
    var plan := Plan(body, size);
    FullPartsFirst(body, size);
    PlanShape(body, size);
    PlanEnds(body, size);
    AllAcceptedLast(answers, |plan|);
    if broken || !Decides(answers, plan) {
      SentBeforeTheEnd(requests, body, size, broken, answers);
      UploadUnended(requests, body, size);
    }
  }

  lemma PlanEnds(body: Bytes, size: nat)
    requires size > 0 && |body| >= size
    ensures CompleteUpload in Plan(body, size) && CreateUpload in Plan(body, size) && AbortUpload !in Plan(body, size)
  {
    PartsUnended(Parts(body, size), 1);
  }

  /** A write that breaks, or whose requests fail before the last, has not sent the last request of the plan. */
  lemma SentBeforeTheEnd(requests: seq<Request>, body: Bytes, size: nat, broken: bool, answers: nat -> Answer)
    requires size > 0 && |body| >= size && Ran(requests, Due(body, size, broken), answers)
    requires broken || !Decides(answers, Plan(body, size))
    ensures requests != [] && requests <= Plan(body, size) && |requests| < |Plan(body, size)|
  {
    FullPartsFirst(body, size);
    if broken {
      PartsUnended(FullParts(body, size), 1);
      NotCompleted(Due(body, size, true), body, size);
    } else {
      AllAcceptedLast(answers, |Plan(body, size)|);
    }
  }

  /** The same request, with a body of the same size. */
  predicate SameShape(a: Request, b: Request) {
    match (a, b)
    case (PutObject(x), PutObject(y)) => |x| == |y|
    case (UploadPart(m, x), UploadPart(n, y)) => m == n && |x| == |y|
    case _ => a == b
  }

  lemma {:induction false} PartSizes(a: Bytes, b: Bytes, size: nat)
    requires size > 0 && |a| == |b|
    ensures |Parts(a, size)| == |Parts(b, size)|
    ensures forall i | 0 <= i < |Parts(a, size)| :: |Parts(a, size)[i]| == |Parts(b, size)[i]|
    decreases |a|
  {
    if |a| > size {
      PartSizes(a[size..], b[size..], size);
    }
  }

  /** Bodies of equal length are sent by the same requests, byte contents aside. */
  lemma PlanByLength(a: Bytes, b: Bytes, size: nat)
    requires size > 0 && |a| == |b|
    ensures |Plan(a, size)| == |Plan(b, size)|
    ensures forall i | 0 <= i < |Plan(a, size)| :: SameShape(Plan(a, size)[i], Plan(b, size)[i])
  {
    PartSizes(a, b, size);
    RequestsLength(Parts(a, size), 1);
    RequestsLength(Parts(b, size), 1);
  }

  lemma {:induction false} RequestsLength(parts: seq<Bytes>, first: nat)
    ensures |PartRequests(parts, first)| == |parts|
    ensures forall i | 0 <= i < |parts| :: PartRequests(parts, first)[i] == UploadPart(first + i, parts[i])
  {
    if parts != [] {
      RequestsLength(parts[1..], first + 1);
    }
  }
}
