/** File system calls that can fail, runs of them, and what the calls of an upload leave behind. */
module DiskCalls {
  import opened Wrappers
  import opened Sequences
  import opened ByteStrings
  import opened Streams
  import opened ObjectAgreement

  /** A call on the file system; `MakeParent` makes the directories above a path. */
  datatype Call =
    | MakeParent(path: string)
    | Create(path: string)
    | Append(path: string, bytes: Bytes)
    | Flush(path: string)
    | WriteInfo(path: string, info: ObjectInfo)
    | Rename(from: string, to: string)
    | Remove(path: string)

  /**
    Whether a call does its work; the removal of a missing file counts as done. A failed create, write or append may
    leave part of it behind, `part` says how much; a failed rename or removal changes nothing.
   */
  datatype Answer = Fine | Fails(part: nat)

  /** The files, the calls so far, and the files after each of these. */
  datatype World = World(files: Files, log: seq<Call>, seen: seq<Files>)

  function Effect(files: Files, call: Call, answer: Answer): Files {
    match call
    case MakeParent(_) => files
    case Create(path) => if answer.Fine? || answer.part > 0 then files[path := Data([])] else files
    case Append(path, bytes) =>
      if path in files && files[path].Data? then
        files[path := Data(files[path].bytes + if answer.Fine? then bytes else bytes[..Min(answer.part, |bytes|)])]
      else files
    case Flush(_) => files
    case WriteInfo(path, info) =>
      if answer.Fine? then files[path := Sidecar(info)] else if answer.part > 0 then files[path := Partial] else files
    case Rename(from, to) => if answer.Fine? && from in files then Moved(files, from, to) else files
    case Remove(path) => if answer.Fine? then files - {path} else files
  }

  /** The call's answer is `answers` at its place in the log. */
  function Next(w: World, call: Call, answers: nat -> Answer): World {
    var files := Effect(w.files, call, answers(|w.log|));
    World(files, w.log + [call], w.seen + [files])
  }

  predicate Works(w: World, call: Call, answers: nat -> Answer) {
    answers(|w.log|).Fine? && (call.Rename? ==> call.from in w.files)
  }

  function Run(w: World, calls: seq<Call>, answers: nat -> Answer): World
    decreases |calls|
  {
    if calls == [] then w else Run(Next(w, calls[0], answers), calls[1..], answers)
  }

  lemma {:induction false} RunConcat(w: World, a: seq<Call>, b: seq<Call>, answers: nat -> Answer)
    ensures Run(w, a + b, answers) == Run(Run(w, a, answers), b, answers)
    decreases |a|
  {
    if a == [] {
      assert a + b == b;
    } else {
      ConcatHead(a, b);
      RunConcat(Next(w, a[0], answers), a[1..], b, answers);
    }
  }

  lemma {:induction false} RunLog(w: World, calls: seq<Call>, answers: nat -> Answer)
    ensures Run(w, calls, answers).log == w.log + calls && |Run(w, calls, answers).seen| == |w.seen| + |calls|
    decreases |calls|
  {
    if calls != [] {
      RunLog(Next(w, calls[0], answers), calls[1..], answers);
      assert calls == [calls[0]] + calls[1..];
    } else {
      assert w.log + calls == w.log;
    }
  }

  lemma RunFew(w: World, a: Call, b: Call, answers: nat -> Answer)
    ensures Run(w, [a], answers) == Next(w, a, answers)
    ensures Run(w, [a, b], answers) == Next(Next(w, a, answers), b, answers)
  {
    assert [a][1..] == [] && [a, b][1..] == [b] && [b][1..] == [];
    assert Run(Next(w, a, answers), [b], answers) == Next(Next(w, a, answers), b, answers);
  }

  lemma RunOn(w: World, calls: seq<Call>, call: Call, answers: nat -> Answer)
    ensures Run(w, calls + [call], answers) == Next(Run(w, calls, answers), call, answers)
  {
    RunConcat(w, calls, [call], answers);
    RunFew(Run(w, calls, answers), call, call, answers);
  }

  /** From one world to the other exactly these calls were made. */
  ghost predicate Made(w: World, after: World, calls: seq<Call>, answers: nat -> Answer) {
    after == Run(w, calls, answers) && after.log == w.log + calls
  }

  lemma MadeOne(w: World, call: Call, answers: nat -> Answer)
    ensures Made(w, Next(w, call, answers), [call], answers)
  {
    RunFew(w, call, call, answers);
  }

  lemma MadeNone(w: World, answers: nat -> Answer)
    ensures Made(w, w, [], answers)
  {
    assert w.log + [] == w.log;
  }

  lemma MadeJoin(w: World, middle: World, after: World, a: seq<Call>, b: seq<Call>, answers: nat -> Answer)
    requires Made(w, middle, a, answers) && Made(middle, after, b, answers)
    ensures Made(w, after, a + b, answers)
  {
    RunConcat(w, a, b, answers);
    ConcatAssociative(w.log, a, b);
  }

  lemma MadeNext(w: World, middle: World, a: seq<Call>, call: Call, answers: nat -> Answer)
    requires Made(w, middle, a, answers)
    ensures Made(w, Next(middle, call, answers), a + [call], answers)
  {
    MadeOne(middle, call, answers);
    MadeJoin(w, middle, Next(middle, call, answers), a, [call], answers);
  }

  // ---- Which calls work ----

  /** The calls from the first to before the last all do their work. */
  ghost predicate AllFine(answers: nat -> Answer, first: nat, last: nat)
    decreases last - first
  {
    first >= last || (answers(first).Fine? && AllFine(answers, first + 1, last))
  }

  lemma {:induction false} AllFineIff(answers: nat -> Answer, first: nat, last: nat)
    ensures AllFine(answers, first, last) <==> forall i | first <= i < last :: answers(i).Fine?
    decreases last - first
  {
    if first < last {
      AllFineIff(answers, first + 1, last);
    }
  }

  lemma {:induction false} AllFineSplit(answers: nat -> Answer, first: nat, middle: nat, last: nat)
    requires first <= middle <= last
    ensures AllFine(answers, first, last) <==> AllFine(answers, first, middle) && AllFine(answers, middle, last)
    decreases middle - first
  {
    if first < middle {
      AllFineSplit(answers, first + 1, middle, last);
    }
  }

  lemma AllFineOne(answers: nat -> Answer, first: nat)
    ensures AllFine(answers, first, first + 1) <==> answers(first).Fine?
  {
    assert AllFine(answers, first + 1, first + 1);
  }

  /** As many of the calls as do their work, and the first that does not. */
  function Cut(due: seq<Call>, answers: nat -> Answer, first: nat): (calls: seq<Call>)
    ensures calls <= due && (AllFine(answers, first, first + |due|) ==> calls == due)
    ensures !AllFine(answers, first, first + |due|) ==>
              calls != [] && AllFine(answers, first, first + |calls| - 1) && !answers(first + |calls| - 1).Fine?
  {
    if due == [] then [] else if answers(first).Fine? then [due[0]] + Cut(due[1..], answers, first + 1) else [due[0]]
  }

  /** There is one way to stop at the first call that fails. */
  lemma {:induction false} CutIs(due: seq<Call>, answers: nat -> Answer, first: nat, calls: seq<Call>)
    requires calls <= due && calls != [] && AllFine(answers, first, first + |calls| - 1) && !answers(first + |calls| - 1).Fine?
    ensures Cut(due, answers, first) == calls && !AllFine(answers, first, first + |due|)
  {
    if |calls| == 1 {
      assert calls == [due[0]];
    } else {
      assert calls[1..] <= due[1..] && calls == [due[0]] + calls[1..];
      CutIs(due[1..], answers, first + 1, calls[1..]);
    }
  }

  // ---- The states a write passes through ----

  /**
    What a state passed through by a write may look like: nothing but the writer's four files touched,
    the sidecar not yet replaced, and the data file old or the whole of `content`.
   */
  ghost predicate Completing(files: Files, before: Files, p: Paths, content: Content) {
    && Only(before, files, p.All())
    && At(files, p.sidecar) == At(before, p.sidecar)
    && (At(files, p.data) == At(before, p.data) || At(files, p.data) == Some(content))
  }

  /** What a completed write leaves: both files replaced, no temporary file, and nothing else touched. */
  ghost predicate Completed(files: Files, before: Files, p: Paths, content: Content, info: ObjectInfo) {
    && Only(before, files, p.All())
    && At(files, p.data) == Some(content) && At(files, p.sidecar) == Some(Sidecar(info))
    && p.temp !in files && p.sidecarTemp !in files
  }

  /** Every state since the `from`-th, and the present one, is such a state. */
  ghost predicate OnTheWay(w: World, from: nat, before: Files, p: Paths, content: Content) {
    && from <= |w.seen| && Completing(w.files, before, p, content)
    && forall i | from <= i < |w.seen| :: Completing(w.seen[i], before, p, content)
  }

  lemma Begins(w: World, p: Paths, content: Content)
    ensures OnTheWay(w, |w.seen|, w.files, p, content)
  {
  }

  /** The call can touch the writer's temporary files only. */
  predicate Quiet(p: Paths, call: Call) {
    match call
    case MakeParent(_) => true
    case Flush(_) => true
    case Create(path) => path in p.Temps()
    case Append(path, _) => path in p.Temps()
    case WriteInfo(path, _) => path in p.Temps()
    case Remove(path) => path in p.Temps()
    case Rename(_, _) => false
  }

  ghost predicate AllQuiet(p: Paths, calls: seq<Call>) {
    forall i | 0 <= i < |calls| :: Quiet(p, calls[i])
  }

  lemma QuietEffect(files: Files, call: Call, answer: Answer, p: Paths)
    requires Quiet(p, call)
    ensures Only(files, Effect(files, call, answer), p.Temps())
  {
  }

  lemma OnlyTwice(a: Files, b: Files, c: Files, paths: set<string>)
    requires Only(a, b, paths) && Only(b, c, paths)
    ensures Only(a, c, paths)
  {
    forall path | path !in paths
      ensures At(a, path) == At(c, path)
    {
      assert At(a, path) == At(b, path);
    }
  }

  /** Work on a writer's temporary files leaves the state as far as it was. */
  lemma TempStep(files: Files, after: Files, before: Files, p: Paths, content: Content)
    requires Completing(files, before, p, content) && p.Distinct() && Only(files, after, p.Temps())
    ensures Completing(after, before, p, content) && At(after, p.data) == At(files, p.data)
  {
    assert At(after, p.data) == At(files, p.data) && At(after, p.sidecar) == At(files, p.sidecar);
  }

  lemma NextOnTheWay(w: World, call: Call, answers: nat -> Answer, from: nat, before: Files, p: Paths, content: Content)
    requires OnTheWay(w, from, before, p, content) && Completing(Next(w, call, answers).files, before, p, content)
    ensures OnTheWay(Next(w, call, answers), from, before, p, content)
  {
  }

  lemma QuietNext(w: World, call: Call, answers: nat -> Answer, from: nat, before: Files, p: Paths, content: Content)
    requires p.Distinct() && Quiet(p, call) && OnTheWay(w, from, before, p, content)
    ensures OnTheWay(Next(w, call, answers), from, before, p, content)
    ensures Only(w.files, Next(w, call, answers).files, p.Temps())
  {
    QuietEffect(w.files, call, answers(|w.log|), p);
    TempStep(w.files, Next(w, call, answers).files, before, p, content);
    NextOnTheWay(w, call, answers, from, before, p, content);
  }

  /** Quiet calls, whatever comes of them, leave a write as far on its way as it was. */
  lemma {:induction false} QuietRun(w: World, calls: seq<Call>, answers: nat -> Answer, from: nat, before: Files, p: Paths, content: Content)
    requires p.Distinct() && AllQuiet(p, calls) && OnTheWay(w, from, before, p, content)
    ensures OnTheWay(Run(w, calls, answers), from, before, p, content)
    ensures Only(w.files, Run(w, calls, answers).files, p.Temps())
    decreases |calls|
  {
    if calls != [] {
      var next := Next(w, calls[0], answers);
      QuietNext(w, calls[0], answers, from, before, p, content);
      QuietRun(next, calls[1..], answers, from, before, p, content);
      OnlyTwice(w.files, next.files, Run(w, calls, answers).files, p.Temps());
    }
  }

  lemma SameData(a: Files, b: Files, p: Paths)
    requires p.Distinct() && Only(a, b, p.Temps())
    ensures At(b, p.data) == At(a, p.data) && At(b, p.sidecar) == At(a, p.sidecar)
  {
  }

  // ---- The calls of an upload ----

  /** The calls of `create_multipart_object`: the directories above both files, and the temporary file. */
  function OpenCalls(p: Paths): seq<Call> {
    [MakeParent(p.data), MakeParent(p.sidecar), Create(p.temp)]
  }

  /** Appending nothing makes no call. */
  function AppendCalls(path: string, bytes: Bytes): seq<Call> {
    if bytes == [] then [] else [Append(path, bytes)]
  }

  /** The calls that feeding a stream makes while they work: one for each chunk with any bytes. */
  function FeedCalls(p: Paths, items: seq<Item>): seq<Call> {
    if items == [] || items[0].Broken? then [] else AppendCalls(p.temp, items[0].bytes) + FeedCalls(p, items[1..])
  }

  function AbortCalls(p: Paths): seq<Call> {
    [Remove(p.temp), Remove(p.sidecarTemp)]
  }

  /** The calls of `complete`, the first of them being the `first`-th; what follows a failed rename cleans up. */
  function CompleteCalls(p: Paths, info: ObjectInfo, answers: nat -> Answer, first: nat): seq<Call> {
    if !answers(first).Fine? then [Flush(p.temp)]
    else if !answers(first + 1).Fine? then [Flush(p.temp), WriteInfo(p.sidecarTemp, info)]
    else if !answers(first + 2).Fine? then [Flush(p.temp), WriteInfo(p.sidecarTemp, info), Rename(p.temp, p.data)] + AbortCalls(p)
    else [Flush(p.temp), WriteInfo(p.sidecarTemp, info), Rename(p.temp, p.data), Rename(p.sidecarTemp, p.sidecar)]
         + if answers(first + 3).Fine? then [] else [Remove(p.sidecarTemp)]
  }

  /** The calls of `put_object_stream` once its writer is open: it is aborted if the stream breaks or a chunk fails. */
  ghost function UploadCalls(p: Paths, items: seq<Item>, info: ObjectInfo, answers: nat -> Answer, first: nat): seq<Call> {
    var feed := FeedCalls(p, items);
    if !Breaks(items) && AllFine(answers, first, first + |feed|) then feed + CompleteCalls(p, info, answers, first + |feed|)
    else Cut(feed, answers, first) + AbortCalls(p)
  }

  lemma UploadCallsAre(p: Paths, items: seq<Item>, info: ObjectInfo, answers: nat -> Answer, first: nat)
    ensures var feed := FeedCalls(p, items);
            UploadCalls(p, items, info, answers, first) ==
            if !Breaks(items) && AllFine(answers, first, first + |feed|) then feed + CompleteCalls(p, info, answers, first + |feed|)
            else Cut(feed, answers, first) + AbortCalls(p)
  {
  }

  /** The calls of `put_object_stream`. */
  ghost function PutCalls(p: Paths, items: seq<Item>, info: ObjectInfo, answers: nat -> Answer, first: nat): seq<Call> {
    Cut(OpenCalls(p), answers, first) + if AllFine(answers, first, first + 3) then UploadCalls(p, items, info, answers, first + 3) else []
  }

  /** The calls of `delete_object`: the sidecar only after the data. */
  function DeleteCalls(data: string, sidecar: string): seq<Call> {
    [Remove(data), Remove(sidecar)]
  }

  lemma DeleteCut(data: string, sidecar: string, answers: nat -> Answer, first: nat)
    ensures Cut(DeleteCalls(data, sidecar), answers, first) == if answers(first).Fine? then [Remove(data), Remove(sidecar)] else [Remove(data)]
  {
    assert DeleteCalls(data, sidecar)[1..] == [Remove(sidecar)] && [Remove(sidecar)][1..] == [];
    assert Cut([Remove(sidecar)], answers, first + 1) == [Remove(sidecar)];
  }

  lemma OpenCut(p: Paths, answers: nat -> Answer, first: nat)
    ensures Cut(OpenCalls(p), answers, first) ==
            if !answers(first).Fine? then [MakeParent(p.data)]
            else if !answers(first + 1).Fine? then [MakeParent(p.data), MakeParent(p.sidecar)]
            else [MakeParent(p.data), MakeParent(p.sidecar), Create(p.temp)]
  {
    var due := OpenCalls(p);
    assert due[1..] == [MakeParent(p.sidecar), Create(p.temp)] && due[1..][1..] == [Create(p.temp)] && due[1..][1..][1..] == [];
    assert Cut(due[1..][1..], answers, first + 2) == [Create(p.temp)];
  }

  /** Where the calls of opening lead. */
  lemma OpenRun(w: World, p: Paths, answers: nat -> Answer)
    ensures var n := |w.log|;
            var a := Next(w, MakeParent(p.data), answers);
            var b := Next(a, MakeParent(p.sidecar), answers);
            && Made(w, if !answers(n).Fine? then a else if !answers(n + 1).Fine? then b else Next(b, Create(p.temp), answers),
                    Cut(OpenCalls(p), answers, n), answers)
            && (AllFine(answers, n, n + 3) <==> answers(n).Fine? && answers(n + 1).Fine? && answers(n + 2).Fine?)
  {
    var a := Next(w, MakeParent(p.data), answers);
    var b := Next(a, MakeParent(p.sidecar), answers);
    OpenCut(p, answers, |w.log|);
    MadeOne(w, MakeParent(p.data), answers);
    MadeNext(w, a, [MakeParent(p.data)], MakeParent(p.sidecar), answers);
    MadeNext(w, b, [MakeParent(p.data), MakeParent(p.sidecar)], Create(p.temp), answers);
    assert [MakeParent(p.data)] + [MakeParent(p.sidecar)] == [MakeParent(p.data), MakeParent(p.sidecar)];
    assert [MakeParent(p.data), MakeParent(p.sidecar)] + [Create(p.temp)] == [MakeParent(p.data), MakeParent(p.sidecar), Create(p.temp)];
    AllFineFour(answers, |w.log|);
  }

  // ---- Feeding ----

  lemma {:induction false} FeedCallsConcat(p: Paths, a: seq<Item>, b: seq<Item>)
    requires !Breaks(a)
    ensures FeedCalls(p, a + b) == FeedCalls(p, a) + FeedCalls(p, b)
  {
    if a == [] {
      assert a + b == b;
    } else {
      BreaksTail(a);
      FeedCallsConcat(p, a[1..], b);
      ConcatHead(a, b);
      ConcatAssociative(AppendCalls(p.temp, a[0].bytes), FeedCalls(p, a[1..]), FeedCalls(p, b));
    }
  }

  /** The calls of feeding up to an item, and with it. */
  lemma FeedStep(p: Paths, items: seq<Item>, i: nat)
    requires i < |items| && !Breaks(items[..i])
    ensures items[i].Broken? ==> FeedCalls(p, items) == FeedCalls(p, items[..i]) && Breaks(items)
    ensures items[i].Chunk? ==> FeedCalls(p, items[..i + 1]) == FeedCalls(p, items[..i]) + AppendCalls(p.temp, items[i].bytes)
    ensures items[i].Chunk? ==> FeedCalls(p, items[..i + 1]) <= FeedCalls(p, items)
  {
    assert items == items[..i] + items[i..];
    FeedCallsConcat(p, items[..i], items[i..]);
    if items[i].Broken? {
      ReadableConcat(items[..i], items[i..]);
    } else {
      FeedCallsConcat(p, items[..i], [items[i]]);
      assert items[..i + 1] == items[..i] + [items[i]] && [items[i]][1..] == [];
      ReadableStep(items, i);
      FeedCallsConcat(p, items[..i + 1], items[i + 1..]);
      assert items == items[..i + 1] + items[i + 1..];
    }
  }

  /** One more chunk fed, or the first that fails. */
  lemma FeedOn(w: World, middle: World, after: World, p: Paths, items: seq<Item>, i: nat, answers: nat -> Answer, ok: bool)
    requires i < |items| && items[i].Chunk? && !Breaks(items[..i]) && Made(w, middle, FeedCalls(p, items[..i]), answers)
    requires AllFine(answers, |w.log|, |w.log| + |FeedCalls(p, items[..i])|)
    requires Made(middle, after, AppendCalls(p.temp, items[i].bytes), answers) && (ok <==> items[i].bytes == [] || answers(|middle.log|).Fine?)
    ensures ok ==> Made(w, after, FeedCalls(p, items[..i + 1]), answers) && AllFine(answers, |w.log|, |w.log| + |FeedCalls(p, items[..i + 1])|)
    ensures !ok ==>
              && Made(w, after, Cut(FeedCalls(p, items), answers, |w.log|), answers)
              && !AllFine(answers, |w.log|, |w.log| + |FeedCalls(p, items)|)
  {
    var before, calls := FeedCalls(p, items[..i]), FeedCalls(p, items[..i + 1]);
    FeedStep(p, items, i);
    MadeJoin(w, middle, after, before, AppendCalls(p.temp, items[i].bytes), answers);
    AllFineSplit(answers, |w.log|, |middle.log|, |w.log| + |calls|);
    AllFineOne(answers, |middle.log|);
    if !ok {
      CutIs(FeedCalls(p, items), answers, |w.log|, calls);
    }
  }

  // ---- Completing ----

  /** What the renames of `complete` lead to, the first of them being the `first`-th call. */
  ghost predicate Placed(w: World, was: Files, p: Paths, content: Content, answers: nat -> Answer, first: nat) {
    && At(w.files, p.data) == (if answers(first).Fine? then Some(content) else At(was, p.data))
    && (RemovalsFine(w.log, first, answers) ==> p.temp !in w.files && p.sidecarTemp !in w.files)
  }

  /** Of the calls since `first`, every removal has done its work. */
  ghost predicate RemovalsFine(log: seq<Call>, first: nat, answers: nat -> Answer) {
    forall i | first <= i < |log| && log[i].Remove? :: answers(i).Fine?
  }

  lemma DataStep(files: Files, before: Files, p: Paths)
    requires p.Distinct() && p.temp in files && Completing(files, before, p, files[p.temp])
    ensures Completing(Moved(files, p.temp, p.data), before, p, files[p.temp])
  {
    MovedElsewhere(files, p.temp, p.data);
  }

  lemma SidecarStep(files: Files, before: Files, p: Paths, content: Content)
    requires Completing(files, before, p, content) && p.Distinct() && At(files, p.data) == Some(content) && p.temp !in files
    requires p.sidecarTemp in files && files[p.sidecarTemp].Sidecar?
    ensures Completed(Moved(files, p.sidecarTemp, p.sidecar), before, p, content, files[p.sidecarTemp].info)
  {
    MovedElsewhere(files, p.sidecarTemp, p.sidecar);
  }

  /** The world after the flush and the description, when these work. */
  function Described(w: World, p: Paths, info: ObjectInfo, answers: nat -> Answer): World {
    Next(Next(w, Flush(p.temp), answers), WriteInfo(p.sidecarTemp, info), answers)
  }

  lemma DescribedFacts(w: World, p: Paths, info: ObjectInfo, answers: nat -> Answer, from: nat, before: Files)
    requires p.Distinct() && p.temp in w.files && OnTheWay(w, from, before, p, w.files[p.temp])
    ensures var d := Described(w, p, info, answers);
            && OnTheWay(d, from, before, p, w.files[p.temp]) && Only(w.files, d.files, {p.sidecarTemp}) && |d.log| == |w.log| + 2
            && At(d.files, p.temp) == Some(w.files[p.temp]) && At(d.files, p.data) == At(w.files, p.data)
            && (answers(|w.log| + 1).Fine? ==> At(d.files, p.sidecarTemp) == Some(Sidecar(info)))
  {
    var content, f := w.files[p.temp], Next(w, Flush(p.temp), answers);
    QuietNext(w, Flush(p.temp), answers, from, before, p, content);
    QuietNext(f, WriteInfo(p.sidecarTemp, info), answers, from, before, p, content);
  }

  /** After a first rename that fails: nothing is published, and both temporary files are removed if that works. */
  lemma UnplacedFacts(d: World, p: Paths, answers: nat -> Answer, from: nat, before: Files, content: Content)
    requires p.Distinct() && OnTheWay(d, from, before, p, content) && !answers(|d.log|).Fine?
    ensures var w := Run(Next(d, Rename(p.temp, p.data), answers), AbortCalls(p), answers);
            OnTheWay(w, from, before, p, content) && Placed(w, d.files, p, content, answers, |d.log|)
  {
    var r := Next(d, Rename(p.temp, p.data), answers);
    NextOnTheWay(d, Rename(p.temp, p.data), answers, from, before, p, content);
    QuietRun(r, AbortCalls(p), answers, from, before, p, content);
    var w := Run(r, AbortCalls(p), answers);
    SameData(r.files, w.files, p);
    RunFew(r, Remove(p.temp), Remove(p.sidecarTemp), answers);
    assert w.log[|d.log| + 1] == Remove(p.temp) && w.log[|d.log| + 2] == Remove(p.sidecarTemp);
  }

  lemma MovedToData(files: Files, p: Paths)
    requires p.Distinct() && p.temp in files
    ensures var moved := Moved(files, p.temp, p.data);
            At(moved, p.data) == Some(files[p.temp]) && p.temp !in moved && At(moved, p.sidecarTemp) == At(files, p.sidecarTemp)
  {
  }

  /** After the first rename: the new data is in place, and its temporary file gone. */
  lemma DataPlaced(d: World, p: Paths, answers: nat -> Answer, from: nat, before: Files)
    requires p.Distinct() && p.temp in d.files && OnTheWay(d, from, before, p, d.files[p.temp]) && answers(|d.log|).Fine?
    ensures var r := Next(d, Rename(p.temp, p.data), answers);
            && OnTheWay(r, from, before, p, d.files[p.temp]) && At(r.files, p.data) == Some(d.files[p.temp])
            && p.temp !in r.files && At(r.files, p.sidecarTemp) == At(d.files, p.sidecarTemp)
  {
    DataStep(d.files, before, p);
    MovedToData(d.files, p);
    NextOnTheWay(d, Rename(p.temp, p.data), answers, from, before, p, d.files[p.temp]);
  }

  /** After a second rename that fails: the new data stays, the sidecar's temporary file is removed if that works. */
  lemma SidecarUnplaced(r: World, p: Paths, answers: nat -> Answer, from: nat, before: Files, content: Content)
    requires p.Distinct() && OnTheWay(r, from, before, p, content) && !answers(|r.log|).Fine? && p.temp !in r.files
    ensures var w := Next(Next(r, Rename(p.sidecarTemp, p.sidecar), answers), Remove(p.sidecarTemp), answers);
            && OnTheWay(w, from, before, p, content) && At(w.files, p.data) == At(r.files, p.data) && p.temp !in w.files
            && (RemovalsFine(w.log, |r.log|, answers) ==> p.sidecarTemp !in w.files)
  {
    var f := Next(r, Rename(p.sidecarTemp, p.sidecar), answers);
    NextOnTheWay(r, Rename(p.sidecarTemp, p.sidecar), answers, from, before, p, content);
    QuietNext(f, Remove(p.sidecarTemp), answers, from, before, p, content);
    var w := Next(f, Remove(p.sidecarTemp), answers);
    SameData(f.files, w.files, p);
    assert w.log[|r.log| + 1] == Remove(p.sidecarTemp);
  }

  /** All but the last state are on the way, and in the last the write is completed. */
  ghost predicate Uploaded(w: World, from: nat, before: Files, p: Paths, content: Content, info: ObjectInfo) {
    && from < |w.seen| && w.seen[|w.seen| - 1] == w.files && Completed(w.files, before, p, content, info)
    && forall i | from <= i < |w.seen| - 1 :: Completing(w.seen[i], before, p, content)
  }

  lemma SidecarPlaced(r: World, p: Paths, answers: nat -> Answer, from: nat, before: Files, content: Content)
    requires p.Distinct() && OnTheWay(r, from, before, p, content) && answers(|r.log|).Fine? && p.temp !in r.files
    requires At(r.files, p.data) == Some(content) && p.sidecarTemp in r.files && r.files[p.sidecarTemp].Sidecar?
    ensures Uploaded(Next(r, Rename(p.sidecarTemp, p.sidecar), answers), from, before, p, content, r.files[p.sidecarTemp].info)
  {
    SidecarStep(r.files, before, p, content);
  }

  lemma FourCalls(w: World, a: Call, b: Call, c: Call, rest: seq<Call>, answers: nat -> Answer)
    ensures Run(w, [a], answers) == Next(w, a, answers)
    ensures Run(w, [a, b], answers) == Next(Next(w, a, answers), b, answers)
    ensures Run(w, [a, b, c] + rest, answers) == Run(Next(Next(Next(w, a, answers), b, answers), c, answers), rest, answers)
  {
    RunFew(w, a, b, answers);
    RunOn(w, [a, b], c, answers);
    assert [a, b] + [c] == [a, b, c];
    RunConcat(w, [a, b, c], rest, answers);
  }

  lemma AllFineFour(answers: nat -> Answer, first: nat)
    ensures AllFine(answers, first, first + 2) <==> answers(first).Fine? && answers(first + 1).Fine?
    ensures AllFine(answers, first, first + 3) <==> AllFine(answers, first, first + 2) && answers(first + 2).Fine?
    ensures AllFine(answers, first, first + 4) <==> AllFine(answers, first, first + 3) && answers(first + 3).Fine?
  {
    AllFineSplit(answers, first, first + 1, first + 2);
    AllFineSplit(answers, first, first + 2, first + 3);
    AllFineSplit(answers, first, first + 3, first + 4);
    AllFineOne(answers, first);
    AllFineOne(answers, first + 1);
    AllFineOne(answers, first + 2);
    AllFineOne(answers, first + 3);
  }

  /** `complete`, when its first two calls do not both work: nothing is published, and the temporary files stay. */
  lemma UndescribedFacts(w: World, p: Paths, info: ObjectInfo, answers: nat -> Answer, from: nat, before: Files)
    requires p.Distinct() && p.temp in w.files && OnTheWay(w, from, before, p, w.files[p.temp])
    requires !(answers(|w.log|).Fine? && answers(|w.log| + 1).Fine?)
    ensures var after := Run(w, CompleteCalls(p, info, answers, |w.log|), answers);
            OnTheWay(after, from, before, p, w.files[p.temp]) && Only(w.files, after.files, {p.sidecarTemp})
  {
    FourCalls(w, Flush(p.temp), WriteInfo(p.sidecarTemp, info), Flush(p.temp), [], answers);
    DescribedFacts(w, p, info, answers, from, before);
    QuietNext(w, Flush(p.temp), answers, from, before, p, w.files[p.temp]);
  }

  /** `complete`, when the first rename fails. */
  lemma PlacingFails(w: World, p: Paths, info: ObjectInfo, answers: nat -> Answer, from: nat, before: Files)
    requires p.Distinct() && p.temp in w.files && OnTheWay(w, from, before, p, w.files[p.temp])
    requires answers(|w.log|).Fine? && answers(|w.log| + 1).Fine? && !answers(|w.log| + 2).Fine?
    ensures var after := Run(w, CompleteCalls(p, info, answers, |w.log|), answers);
            OnTheWay(after, from, before, p, w.files[p.temp]) && Placed(after, w.files, p, w.files[p.temp], answers, |w.log| + 2)
  {
    DescribedFacts(w, p, info, answers, from, before);
    FourCalls(w, Flush(p.temp), WriteInfo(p.sidecarTemp, info), Rename(p.temp, p.data), AbortCalls(p), answers);
    UnplacedFacts(Described(w, p, info, answers), p, answers, from, before, w.files[p.temp]);
  }

  /** The world after the first rename, when it and the calls before it work. */
  function DataInPlace(w: World, p: Paths, info: ObjectInfo, answers: nat -> Answer): World {
    Next(Described(w, p, info, answers), Rename(p.temp, p.data), answers)
  }

  lemma DataInPlaceFacts(w: World, p: Paths, info: ObjectInfo, answers: nat -> Answer, from: nat, before: Files)
    requires p.Distinct() && p.temp in w.files && OnTheWay(w, from, before, p, w.files[p.temp])
    requires answers(|w.log|).Fine? && answers(|w.log| + 1).Fine? && answers(|w.log| + 2).Fine?
    ensures var r := DataInPlace(w, p, info, answers);
            && OnTheWay(r, from, before, p, w.files[p.temp]) && At(r.files, p.data) == Some(w.files[p.temp]) && p.temp !in r.files
            && At(r.files, p.sidecarTemp) == Some(Sidecar(info)) && |r.log| == |w.log| + 3
    ensures forall rest :: Run(w, [Flush(p.temp), WriteInfo(p.sidecarTemp, info), Rename(p.temp, p.data)] + rest, answers) ==
                           Run(DataInPlace(w, p, info, answers), rest, answers)
  {
    DescribedFacts(w, p, info, answers, from, before);
    DataPlaced(Described(w, p, info, answers), p, answers, from, before);
    forall rest
      ensures Run(w, [Flush(p.temp), WriteInfo(p.sidecarTemp, info), Rename(p.temp, p.data)] + rest, answers) ==
              Run(DataInPlace(w, p, info, answers), rest, answers)
    {
      FourCalls(w, Flush(p.temp), WriteInfo(p.sidecarTemp, info), Rename(p.temp, p.data), rest, answers);
    }
  }

  /** `complete`, when the second rename fails. */
  lemma PlacingHalf(w: World, p: Paths, info: ObjectInfo, answers: nat -> Answer, from: nat, before: Files)
    requires p.Distinct() && p.temp in w.files && OnTheWay(w, from, before, p, w.files[p.temp])
    requires answers(|w.log|).Fine? && answers(|w.log| + 1).Fine? && answers(|w.log| + 2).Fine? && !answers(|w.log| + 3).Fine?
    ensures var after := Run(w, CompleteCalls(p, info, answers, |w.log|), answers);
            OnTheWay(after, from, before, p, w.files[p.temp]) && Placed(after, w.files, p, w.files[p.temp], answers, |w.log| + 2)
  {
    var r, last, removal := DataInPlace(w, p, info, answers), Rename(p.sidecarTemp, p.sidecar), Remove(p.sidecarTemp);
    DataInPlaceFacts(w, p, info, answers, from, before);
    var after := Next(Next(r, last, answers), removal, answers);
    assert Run(w, CompleteCalls(p, info, answers, |w.log|), answers) == after by {
      assert CompleteCalls(p, info, answers, |w.log|) ==
             [Flush(p.temp), WriteInfo(p.sidecarTemp, info), Rename(p.temp, p.data)] + [last, removal];
      RunFew(r, last, removal, answers);
    }
    SidecarUnplaced(r, p, answers, from, before, w.files[p.temp]);
    RemovalsLater(after.log, |w.log| + 2, |w.log| + 3, answers);
  }

  /** `complete`, when everything works. */
  lemma PlacingAll(w: World, p: Paths, info: ObjectInfo, answers: nat -> Answer, from: nat, before: Files)
    requires p.Distinct() && p.temp in w.files && OnTheWay(w, from, before, p, w.files[p.temp])
    requires answers(|w.log|).Fine? && answers(|w.log| + 1).Fine? && answers(|w.log| + 2).Fine? && answers(|w.log| + 3).Fine?
    ensures var after := Run(w, CompleteCalls(p, info, answers, |w.log|), answers);
            Uploaded(after, from, before, p, w.files[p.temp], info) && Placed(after, w.files, p, w.files[p.temp], answers, |w.log| + 2)
  {
    var r, last := DataInPlace(w, p, info, answers), Rename(p.sidecarTemp, p.sidecar);
    DataInPlaceFacts(w, p, info, answers, from, before);
    assert Run(w, CompleteCalls(p, info, answers, |w.log|), answers) == Next(r, last, answers) by {
      assert CompleteCalls(p, info, answers, |w.log|) ==
             [Flush(p.temp), WriteInfo(p.sidecarTemp, info), Rename(p.temp, p.data)] + [last];
      RunFew(r, last, last, answers);
    }
    SidecarPlaced(r, p, answers, from, before, w.files[p.temp]);
  }

  lemma RemovalsLater(log: seq<Call>, first: nat, later: nat, answers: nat -> Answer)
    requires first <= later
    ensures RemovalsFine(log, first, answers) ==> RemovalsFine(log, later, answers)
  {
  }

  /** The renames of `complete` find the files they rename. */
  lemma RenamesFindFiles(w: World, p: Paths, info: ObjectInfo, answers: nat -> Answer)
    requires p.Distinct() && p.temp in w.files && answers(|w.log|).Fine? && answers(|w.log| + 1).Fine?
    ensures |Described(w, p, info, answers).log| == |w.log| + 2 && p.temp in Described(w, p, info, answers).files
    ensures |DataInPlace(w, p, info, answers).log| == |w.log| + 3 && p.sidecarTemp in DataInPlace(w, p, info, answers).files
  {
  }

  /** Where the calls of `complete` lead, in each of its five cases. */
  lemma CompleteRun(w: World, p: Paths, info: ObjectInfo, answers: nat -> Answer)
    ensures var n, after := |w.log|, Run(w, CompleteCalls(p, info, answers, |w.log|), answers);
            var d, r := Described(w, p, info, answers), DataInPlace(w, p, info, answers);
            var s := Next(r, Rename(p.sidecarTemp, p.sidecar), answers);
            after == if !answers(n).Fine? then Next(w, Flush(p.temp), answers)
                     else if !answers(n + 1).Fine? then d
                     else if !answers(n + 2).Fine? then Next(Next(r, Remove(p.temp), answers), Remove(p.sidecarTemp), answers)
                     else if !answers(n + 3).Fine? then Next(s, Remove(p.sidecarTemp), answers)
                     else s
  {
    var n, flush, describe, place := |w.log|, Flush(p.temp), WriteInfo(p.sidecarTemp, info), Rename(p.temp, p.data);
    var last, removal, r := Rename(p.sidecarTemp, p.sidecar), Remove(p.sidecarTemp), DataInPlace(w, p, info, answers);
    RunFew(w, flush, describe, answers);
    RunFew(r, last, removal, answers);
    RunFew(r, Remove(p.temp), removal, answers);
    CompleteCallLists(p, info, answers, n);
    FourCalls(w, flush, describe, place, AbortCalls(p), answers);
    FourCalls(w, flush, describe, place, [last, removal], answers);
    FourCalls(w, flush, describe, place, [last], answers);
  }

  lemma CompleteCallLists(p: Paths, info: ObjectInfo, answers: nat -> Answer, n: nat)
    ensures answers(n).Fine? && answers(n + 1).Fine? && answers(n + 2).Fine? ==>
              CompleteCalls(p, info, answers, n) ==
              [Flush(p.temp), WriteInfo(p.sidecarTemp, info), Rename(p.temp, p.data)] +
              if answers(n + 3).Fine? then [Rename(p.sidecarTemp, p.sidecar)] else [Rename(p.sidecarTemp, p.sidecar), Remove(p.sidecarTemp)]
  {
  }

  // ---- A whole `put_object_stream` ----

  /** If there has been a removal since the `first`-th call and all of them worked, no temporary file is left. */
  ghost predicate Tidied(w: World, p: Paths, answers: nat -> Answer, first: nat) {
    (exists i | first <= i < |w.log| :: w.log[i].Remove?) && RemovalsFine(w.log, first, answers) ==>
      p.temp !in w.files && p.sidecarTemp !in w.files
  }

  ghost predicate NoRemovals(calls: seq<Call>) {
    forall i | 0 <= i < |calls| :: !calls[i].Remove?
  }

  lemma NoRemovalsTidied(w: World, p: Paths, answers: nat -> Answer, before: seq<Call>, calls: seq<Call>)
    requires w.log == before + calls && NoRemovals(calls)
    ensures Tidied(w, p, answers, |before|)
  {
    forall i | |before| <= i < |w.log|
      ensures !w.log[i].Remove?
    {
      assert w.log[i] == calls[i - |before|];
    }
  }

  lemma {:induction false} FeedIsQuiet(p: Paths, items: seq<Item>)
    ensures AllQuiet(p, FeedCalls(p, items)) && NoRemovals(FeedCalls(p, items))
  {
    if items != [] {
      FeedIsQuiet(p, items[1..]);
    }
  }

  lemma BeginningIsQuiet(p: Paths, calls: seq<Call>, all: seq<Call>)
    requires calls <= all && AllQuiet(p, all) && NoRemovals(all)
    ensures AllQuiet(p, calls) && NoRemovals(calls)
  {
  }

  /** What the writer's temporary file holds after opening. */
  lemma OpenedFile(w: World, p: Paths, answers: nat -> Answer)
    requires AllFine(answers, |w.log|, |w.log| + 3)
    ensures At(Run(w, OpenCalls(p), answers).files, p.temp) == Some(Data([]))
  {
    AllFineFour(answers, |w.log|);
    FourCalls(w, MakeParent(p.data), MakeParent(p.sidecar), Create(p.temp), [], answers);
    assert [MakeParent(p.data), MakeParent(p.sidecar), Create(p.temp)] + [] == OpenCalls(p);
  }

  lemma AppendedFile(w: World, p: Paths, bytes: Bytes, answers: nat -> Answer)
    requires p.temp in w.files && w.files[p.temp].Data? && AllFine(answers, |w.log|, |w.log| + |AppendCalls(p.temp, bytes)|)
    ensures var after := Run(w, AppendCalls(p.temp, bytes), answers);
            At(after.files, p.temp) == Some(Data(w.files[p.temp].bytes + bytes)) && |after.log| == |w.log| + |AppendCalls(p.temp, bytes)|
  {
    if bytes != [] {
      AllFineOne(answers, |w.log|);
      RunFew(w, Append(p.temp, bytes), Append(p.temp, bytes), answers);
    } else {
      assert w.files[p.temp].bytes + bytes == w.files[p.temp].bytes;
    }
  }

  /** What it holds after a stream is fed to it. */
  lemma {:induction false} FedFile(w: World, p: Paths, items: seq<Item>, answers: nat -> Answer)
    requires p.temp in w.files && w.files[p.temp].Data? && !Breaks(items)
    requires AllFine(answers, |w.log|, |w.log| + |FeedCalls(p, items)|)
    ensures At(Run(w, FeedCalls(p, items), answers).files, p.temp) == Some(Data(w.files[p.temp].bytes + Readable(items)))
    decreases |items|
  {
    if items == [] {
      assert w.files[p.temp].bytes + [] == w.files[p.temp].bytes;
    } else {
      var calls, rest := AppendCalls(p.temp, items[0].bytes), FeedCalls(p, items[1..]);
      var next := Run(w, calls, answers);
      BreaksTail(items);
      AllFineSplit(answers, |w.log|, |w.log| + |calls|, |w.log| + |FeedCalls(p, items)|);
      AppendedFile(w, p, items[0].bytes, answers);
      FedFile(next, p, items[1..], answers);
      RunConcat(w, calls, rest, answers);
      ConcatAssociative(w.files[p.temp].bytes, items[0].bytes, Readable(items[1..]));
    }
  }

  /** An upload that does not come to complete: nothing published, and both temporary files removed if that works. */
  lemma GivenUpFacts(w: World, p: Paths, calls: seq<Call>, answers: nat -> Answer, content: Content)
    requires p.Distinct() && AllQuiet(p, calls) && NoRemovals(calls)
    ensures var after := Run(w, calls + AbortCalls(p), answers);
            OnTheWay(after, |w.seen|, w.files, p, content) && At(after.files, p.data) == At(w.files, p.data) && Tidied(after, p, answers, |w.log|)
  {
    var fed := Run(w, calls, answers);
    var all := calls + AbortCalls(p);
    var after := Run(w, all, answers);
    forall i | 0 <= i < |all|
      ensures Quiet(p, all[i])
    {
      if i < |calls| {
        assert all[i] == calls[i];
      }
    }
    QuietRun(w, all, answers, |w.seen|, w.files, p, content);
    SameData(w.files, after.files, p);
    RunConcat(w, calls, AbortCalls(p), answers);
    RunLog(w, calls, answers);
    RunLog(w, all, answers);
    RunFew(fed, Remove(p.temp), Remove(p.sidecarTemp), answers);
    assert after.log[|fed.log|] == Remove(p.temp) && after.log[|fed.log| + 1] == Remove(p.sidecarTemp);
  }

  /** An upload that stops while it is being opened. */
  lemma UnopenedFacts(w: World, p: Paths, calls: seq<Call>, answers: nat -> Answer, content: Content)
    requires p.Distinct() && calls <= OpenCalls(p)
    ensures var after := Run(w, calls, answers);
            OnTheWay(after, |w.seen|, w.files, p, content) && At(after.files, p.data) == At(w.files, p.data) && Tidied(after, p, answers, |w.log|)
  {
    QuietRun(w, calls, answers, |w.seen|, w.files, p, content);
    SameData(w.files, Run(w, calls, answers).files, p);
    RunLog(w, calls, answers);
    NoRemovalsTidied(Run(w, calls, answers), p, answers, w.log, calls);
  }

  /** How a write comes out: uploaded, or on the way with the data possibly in place. */
  ghost predicate CameOut(after: World, from: nat, before: Files, p: Paths, content: Content, info: ObjectInfo, ok: bool) {
    if ok then Uploaded(after, from, before, p, content, info) else OnTheWay(after, from, before, p, content)
  }

  lemma CompleteFacts(w: World, p: Paths, info: ObjectInfo, answers: nat -> Answer, from: nat, before: Files)
    requires p.Distinct() && p.temp in w.files && OnTheWay(w, from, before, p, w.files[p.temp])
    ensures var after, n := Run(w, CompleteCalls(p, info, answers, |w.log|), answers), |w.log|;
            && CameOut(after, from, before, p, w.files[p.temp], info, AllFine(answers, n, n + 4))
            && if AllFine(answers, n, n + 2) then Placed(after, w.files, p, w.files[p.temp], answers, n + 2)
               else Only(w.files, after.files, {p.sidecarTemp})
  {
    AllFineFour(answers, |w.log|);
    if !AllFine(answers, |w.log|, |w.log| + 2) {
      UndescribedFacts(w, p, info, answers, from, before);
    } else if !answers(|w.log| + 2).Fine? {
      PlacingFails(w, p, info, answers, from, before);
    } else if !answers(|w.log| + 3).Fine? {
      PlacingHalf(w, p, info, answers, from, before);
    } else {
      PlacingAll(w, p, info, answers, from, before);
    }
  }

  /** After the calls that come before it, `complete` leaves no temporary file if it came to removals and they worked. */
  lemma CompleteTidied(w: World, p: Paths, info: ObjectInfo, answers: nat -> Answer, before: seq<Call>, calls: seq<Call>, content: Content)
    requires w.log == before + calls && NoRemovals(calls)
    requires var after, n := Run(w, CompleteCalls(p, info, answers, |w.log|), answers), |w.log|;
             AllFine(answers, n, n + 2) ==> Placed(after, w.files, p, content, answers, n + 2)
    ensures Tidied(Run(w, CompleteCalls(p, info, answers, |w.log|), answers), p, answers, |before|)
  {
    var last := CompleteCalls(p, info, answers, |w.log|);
    var after := Run(w, last, answers);
    AllFineFour(answers, |w.log|);
    if AllFine(answers, |w.log|, |w.log| + 2) {
      RemovalsLater(after.log, |before|, |w.log| + 2, answers);
    } else {
      RunLog(w, last, answers);
      assert after.log == before + (calls + last);
      NoRemovalsTidied(after, p, answers, before, calls + last);
    }
  }

  lemma QuietJoin(p: Paths, a: seq<Call>, b: seq<Call>)
    requires AllQuiet(p, a) && AllQuiet(p, b) && NoRemovals(a) && NoRemovals(b)
    ensures AllQuiet(p, a + b) && NoRemovals(a + b)
  {
    forall i | 0 <= i < |a + b|
      ensures Quiet(p, (a + b)[i]) && !(a + b)[i].Remove?
    {
      assert (a + b)[i] == if i < |a| then a[i] else b[i - |a|];
    }
  }

  /** The world once everything has been fed: the temporary file holds the whole stream. */
  lemma FedWorld(w: World, p: Paths, items: seq<Item>, answers: nat -> Answer)
    requires p.Distinct() && !Breaks(items) && AllFine(answers, |w.log|, |w.log| + 3 + |FeedCalls(p, items)|)
    ensures var fed := Run(w, OpenCalls(p) + FeedCalls(p, items), answers);
            && OnTheWay(fed, |w.seen|, w.files, p, Data(Readable(items))) && At(fed.files, p.temp) == Some(Data(Readable(items)))
            && fed.log == w.log + (OpenCalls(p) + FeedCalls(p, items))
  {
    hide Run, OnTheWay, FeedCalls, Breaks, Readable;
    RunLog(w, OpenCalls(p) + FeedCalls(p, items), answers);
    FedTemp(w, p, items, answers);
    FeedIsQuiet(p, items);
    QuietJoin(p, OpenCalls(p), FeedCalls(p, items));
    Begins(w, p, Data(Readable(items)));
    QuietRun(w, OpenCalls(p) + FeedCalls(p, items), answers, |w.seen|, w.files, p, Data(Readable(items)));
  }

  lemma FedTemp(w: World, p: Paths, items: seq<Item>, answers: nat -> Answer)
    requires !Breaks(items) && AllFine(answers, |w.log|, |w.log| + 3 + |FeedCalls(p, items)|)
    ensures At(Run(w, OpenCalls(p) + FeedCalls(p, items), answers).files, p.temp) == Some(Data(Readable(items)))
  {
    var empty := Run(w, OpenCalls(p), answers);
    AllFineSplit(answers, |w.log|, |w.log| + 3, |w.log| + 3 + |FeedCalls(p, items)|);
    RunLog(w, OpenCalls(p), answers);
    RunConcat(w, OpenCalls(p), FeedCalls(p, items), answers);
    OpenedFile(w, p, answers);
    FedFile(empty, p, items, answers);
    assert [] + Readable(items) == Readable(items);
  }

  /** How a whole upload from w comes out. */
  ghost predicate PutOutcome(w: World, after: World, p: Paths, items: seq<Item>, info: ObjectInfo, answers: nat -> Answer, ok: bool) {
    && CameOut(after, |w.seen|, w.files, p, Data(Readable(items)), info, ok)
    && (Breaks(items) ==> At(after.files, p.data) == At(w.files, p.data)) && Tidied(after, p, answers, |w.log|)
  }

  /** Completing after calls that have put the whole stream in the temporary file. */
  lemma CompletedPut(w: World, p: Paths, calls: seq<Call>, items: seq<Item>, info: ObjectInfo, answers: nat -> Answer)
    requires p.Distinct() && !Breaks(items) && NoRemovals(calls) && Run(w, calls, answers).log == w.log + calls
    requires OnTheWay(Run(w, calls, answers), |w.seen|, w.files, p, Data(Readable(items)))
    requires At(Run(w, calls, answers).files, p.temp) == Some(Data(Readable(items)))
    ensures var n := |w.log| + |calls|;
            PutOutcome(w, Run(w, calls + CompleteCalls(p, info, answers, n), answers), p, items, info, answers, AllFine(answers, n, n + 4))
  {
    hide Run, CameOut, Tidied;
    var fed := Run(w, calls, answers);
    CompleteFacts(fed, p, info, answers, |w.seen|, w.files);
    RunConcat(w, calls, CompleteCalls(p, info, answers, |fed.log|), answers);
    CompleteTidied(fed, p, info, answers, w.log, calls, Data(Readable(items)));
  }

  // ---- Which calls a whole upload makes ----

  lemma PutCallsUnopened(p: Paths, items: seq<Item>, info: ObjectInfo, answers: nat -> Answer, first: nat)
    requires !AllFine(answers, first, first + 3)
    ensures PutCalls(p, items, info, answers, first) == Cut(OpenCalls(p), answers, first)
  {
  }

  lemma PutCallsGivenUp(p: Paths, items: seq<Item>, info: ObjectInfo, answers: nat -> Answer, first: nat)
    requires AllFine(answers, first, first + 3) && (Breaks(items) || !AllFine(answers, first + 3, first + 3 + |FeedCalls(p, items)|))
    ensures PutCalls(p, items, info, answers, first) == (OpenCalls(p) + Cut(FeedCalls(p, items), answers, first + 3)) + AbortCalls(p)
  {
    ConcatAssociative(OpenCalls(p), Cut(FeedCalls(p, items), answers, first + 3), AbortCalls(p));
  }

  lemma PutCallsCompleted(p: Paths, items: seq<Item>, info: ObjectInfo, answers: nat -> Answer, first: nat)
    requires AllFine(answers, first, first + 3) && !Breaks(items) && AllFine(answers, first + 3, first + 3 + |FeedCalls(p, items)|)
    ensures PutCalls(p, items, info, answers, first) ==
            (OpenCalls(p) + FeedCalls(p, items)) + CompleteCalls(p, info, answers, first + 3 + |FeedCalls(p, items)|)
  {
    ConcatAssociative(OpenCalls(p), FeedCalls(p, items), CompleteCalls(p, info, answers, first + 3 + |FeedCalls(p, items)|));
  }

  /**
    A whole upload. It is uploaded exactly if the stream does not break and every call works: those of opening, one for
    each chunk with bytes, and the four of completing. Otherwise every state is on the way; if the stream broke, the data
    is the old one. It leaves no temporary file if it came to removals and they worked.
   */
  lemma PutFacts(w: World, p: Paths, items: seq<Item>, info: ObjectInfo, answers: nat -> Answer)
    requires p.Distinct()
    ensures var n := |w.log| + 3 + |FeedCalls(p, items)| + 4;
            PutOutcome(w, Run(w, PutCalls(p, items, info, answers, |w.log|), answers), p, items, info, answers,
                       !Breaks(items) && AllFine(answers, |w.log|, n))
  {
    hide Run, PutOutcome;
    var feed, n := |FeedCalls(p, items)|, |w.log| + 3;
    AllFineSplit(answers, |w.log|, n, n + feed + 4);
    AllFineSplit(answers, n, n + feed, n + feed + 4);
    if !AllFine(answers, |w.log|, n) {
      UnopenedPut(w, p, items, info, answers);
    } else if Breaks(items) || !AllFine(answers, n, n + feed) {
      GivenUpPut(w, p, items, info, answers);
    } else {
      FedPut(w, p, items, info, answers);
    }
  }

  lemma UnopenedPut(w: World, p: Paths, items: seq<Item>, info: ObjectInfo, answers: nat -> Answer)
    requires p.Distinct() && !AllFine(answers, |w.log|, |w.log| + 3)
    ensures PutOutcome(w, Run(w, PutCalls(p, items, info, answers, |w.log|), answers), p, items, info, answers, false)
  {
    hide Run;
    PutCallsUnopened(p, items, info, answers, |w.log|);
    UnopenedFacts(w, p, PutCalls(p, items, info, answers, |w.log|), answers, Data(Readable(items)));
  }

  lemma GivenUpPut(w: World, p: Paths, items: seq<Item>, info: ObjectInfo, answers: nat -> Answer)
    requires p.Distinct() && AllFine(answers, |w.log|, |w.log| + 3)
    requires Breaks(items) || !AllFine(answers, |w.log| + 3, |w.log| + 3 + |FeedCalls(p, items)|)
    ensures PutOutcome(w, Run(w, PutCalls(p, items, info, answers, |w.log|), answers), p, items, info, answers, false)
  {
    hide Run, FeedCalls, PutCalls;
    var calls := OpenCalls(p) + Cut(FeedCalls(p, items), answers, |w.log| + 3);
    FedIsQuiet(p, items, answers, |w.log| + 3);
    GivenUpFacts(w, p, calls, answers, Data(Readable(items)));
    PutCallsGivenUp(p, items, info, answers, |w.log|);
  }

  lemma FedIsQuiet(p: Paths, items: seq<Item>, answers: nat -> Answer, first: nat)
    ensures var calls := OpenCalls(p) + Cut(FeedCalls(p, items), answers, first); AllQuiet(p, calls) && NoRemovals(calls)
  {
    FeedIsQuiet(p, items);
    BeginningIsQuiet(p, Cut(FeedCalls(p, items), answers, first), FeedCalls(p, items));
    QuietJoin(p, OpenCalls(p), Cut(FeedCalls(p, items), answers, first));
  }

  lemma FedPut(w: World, p: Paths, items: seq<Item>, info: ObjectInfo, answers: nat -> Answer)
    requires p.Distinct() && AllFine(answers, |w.log|, |w.log| + 3) && !Breaks(items)
    requires AllFine(answers, |w.log| + 3, |w.log| + 3 + |FeedCalls(p, items)|)
    ensures var n := |w.log| + 3 + |FeedCalls(p, items)|;
            PutOutcome(w, Run(w, PutCalls(p, items, info, answers, |w.log|), answers), p, items, info, answers, AllFine(answers, n, n + 4))
  {
    hide Run, PutOutcome;
    var calls := OpenCalls(p) + FeedCalls(p, items);
    AllFineSplit(answers, |w.log|, |w.log| + 3, |w.log| + 3 + |FeedCalls(p, items)|);
    FedWorld(w, p, items, answers);
    FedIsQuiet(p, items, answers, |w.log| + 3);
    CompletedPut(w, p, calls, items, info, answers);
    PutCallsCompleted(p, items, info, answers, |w.log|);
  }
}
