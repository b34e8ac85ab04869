/**
  One key of an SMB share as a machine: any number of conditional creates, unconditional puts and deletes
  take requests in any order; a request may take effect although its reply is lost.
 */
module SmbStore {
  import opened Wrappers
  import opened ByteStrings

  /** A call: `put_blob_if_not_exists` creates the key's file outright, `put_blob` goes through a temporary file. */
  datatype Call = Call(body: Bytes, exclusive: bool)

  /** The file a name leads to: the one that was there at first, or the one made by a call. */
  datatype File = Initial | By(caller: nat)

  datatype Phase =
    | Ready               // nothing sent
    | Writing(sent: nat)  // file open; `sent` bytes accepted
    | Flushed             // all sent and flushed
    | Closed              // a put's temporary file is complete
    | Cleaning            // about to remove the file it wrote, by name
    | Won                 // returned Ok, or Ok(Some)
    | Lost                // returned Ok(None): the create collided
    | Failed              // returned Err

  /**
    `entry` is the file the key names; `contents[c]` the bytes of the file made by call c. The rest is
    history: `epoch` counts removals of the entry, `madeIn[c]` is the epoch in which the create of a
    conditional call took effect, and `replaced` says whether the present entry was not made by one.
   */
  datatype State = State(entry: Option<File>, contents: seq<Bytes>, phases: seq<Phase>,
                         epoch: nat, madeIn: seq<Option<nat>>, replaced: bool)

  datatype Event =
    | CreateReplied(c: nat)
    | CreateUnanswered(c: nat, applied: bool)
    | Write(c: nat, count: nat)
    | WriteFailed(c: nat, count: nat)
    | Flush(c: nat, ok: bool)
    | Close(c: nat, ok: bool)
    | Rename(c: nat, applied: bool, replied: bool)
    | Cleanup(c: nat, applied: bool)
    | Delete

  ghost predicate Init(calls: seq<Call>, s: State) {
    && |s.contents| == |s.phases| == |s.madeIn| == |calls|
    && (forall c | 0 <= c < |calls| :: s.phases[c] == Ready && s.madeIn[c] == None && s.contents[c] == [])
    && s.entry in {None, Some(Initial)} && s.replaced == s.entry.Some?
  }

  predicate Shaped(calls: seq<Call>, s: State) {
    |s.contents| == |s.phases| == |s.madeIn| == |calls|
  }

  predicate Enabled(calls: seq<Call>, s: State, e: Event)
    requires Shaped(calls, s)
  {
    match e
    case CreateReplied(c) => c < |calls| && s.phases[c] == Ready
    case CreateUnanswered(c, applied) =>
      c < |calls| && s.phases[c] == Ready && (applied && calls[c].exclusive ==> s.entry == None)
    case Write(c, count) =>
      c < |calls| && s.phases[c].Writing? && 0 < count && s.phases[c].sent + count <= |calls[c].body|
    case WriteFailed(c, count) =>
      c < |calls| && s.phases[c].Writing? && s.phases[c].sent + count <= |calls[c].body|
    case Flush(c, _) => c < |calls| && s.phases[c] == Writing(|calls[c].body|)
    case Close(c, _) => c < |calls| && s.phases[c] == Flushed
    case Rename(c, _, _) => c < |calls| && s.phases[c] == Closed && !calls[c].exclusive
    case Cleanup(c, _) => c < |calls| && s.phases[c] == Cleaning
    case Delete => s.entry.Some?
  }

  /** FILE_CREATE took effect: a new empty file under the key. */
  function Made(s: State, c: nat, phase: Phase): State
    requires c < |s.phases| && |s.contents| == |s.phases| == |s.madeIn|
  {
    s.(entry := Some(By(c)), contents := s.contents[c := []], phases := s.phases[c := phase],
       madeIn := s.madeIn[c := Some(s.epoch)], replaced := false)
  }

  function Removed(s: State): State {
    if s.entry == None then s else s.(entry := None, epoch := s.epoch + 1, replaced := false)
  }

  function To(s: State, c: nat, phase: Phase): State
    requires c < |s.phases|
  {
    s.(phases := s.phases[c := phase])
  }

  function ApplyCreate(calls: seq<Call>, s: State, c: nat): State
    requires Shaped(calls, s) && c < |calls|
  {
    if !calls[c].exclusive then To(s, c, Writing(0)).(contents := s.contents[c := []])
    else if s.entry.Some? then To(s, c, Lost)
    else Made(s, c, Writing(0))
  }

  /** A failed put cleans up after itself; a conditional create whose reply is lost does not. */
  function ApplyUnanswered(calls: seq<Call>, s: State, c: nat, applied: bool): State
    requires Shaped(calls, s) && c < |calls|
  {
    if !calls[c].exclusive then To(s, c, Cleaning)
    else if applied then Made(s, c, Failed)
    else To(s, c, Failed)
  }

  /** The server has the first `sent` bytes of the body. */
  function Sent(calls: seq<Call>, s: State, c: nat, sent: nat, phase: Phase): State
    requires Shaped(calls, s) && c < |calls| && sent <= |calls[c].body|
  {
    To(s, c, phase).(contents := s.contents[c := calls[c].body[..sent]])
  }

  function ApplyRename(s: State, c: nat, applied: bool, replied: bool): State
    requires c < |s.phases|
  {
    var t := To(s, c, if applied && replied then Won else Cleaning);
    if applied then t.(entry := Some(By(c)), replaced := true) else t
  }

  /** A conditional create removes whatever has the key's name; a put removes its own temporary file. */
  function ApplyCleanup(calls: seq<Call>, s: State, c: nat, applied: bool): State
    requires Shaped(calls, s) && c < |calls|
  {
    To(if applied && calls[c].exclusive then Removed(s) else s, c, Failed)
  }

  function Apply(calls: seq<Call>, s: State, e: Event): State
    requires Shaped(calls, s) && Enabled(calls, s, e)
  {
    match e
    case CreateReplied(c) => ApplyCreate(calls, s, c)
    case CreateUnanswered(c, applied) => ApplyUnanswered(calls, s, c, applied)
    case Write(c, count) => Sent(calls, s, c, s.phases[c].sent + count, Writing(s.phases[c].sent + count))
    case WriteFailed(c, count) => Sent(calls, s, c, s.phases[c].sent + count, Cleaning)
    case Flush(c, ok) => To(s, c, if ok then Flushed else Cleaning)
    case Close(c, ok) => To(s, c, if !ok then Cleaning else if calls[c].exclusive then Won else Closed)
    case Rename(c, applied, replied) => ApplyRename(s, c, applied, replied)
    case Cleanup(c, applied) => ApplyCleanup(calls, s, c, applied)
    case Delete => Removed(s)
  }

  /** A run: each event is enabled where it happens. */
  ghost predicate Run(calls: seq<Call>, s: State, events: seq<Event>, t: State)
    decreases |events|
  {
    if events == [] then s == t
    else Shaped(calls, s) && Enabled(calls, s, events[0]) && Run(calls, Apply(calls, s, events[0]), events[1..], t)
  }

  ghost predicate Reachable(calls: seq<Call>, s: State) {
    exists s0, events :: Init(calls, s0) && Run(calls, s0, events, s)
  }

  // ---- The invariant ----

  /** Each file is a beginning of its call's body, and the whole of it once the call has flushed. */
  ghost predicate CallerOk(call: Call, contents: Bytes, phase: Phase, madeIn: Option<nat>) {
    && contents <= call.body
    && (phase.Writing? ==> phase.sent <= |call.body| && contents == call.body[..phase.sent])
    && (phase in {Flushed, Closed, Won} ==> contents == call.body)
    && (phase in {Ready, Lost} || !call.exclusive ==> madeIn == None)
    && (call.exclusive && (phase.Writing? || phase in {Flushed, Cleaning, Won}) ==> madeIn.Some?)
    && (phase == Closed ==> !call.exclusive) && (phase == Lost ==> call.exclusive)
  }

  ghost predicate CallersOk(calls: seq<Call>, s: State)
    requires Shaped(calls, s)
  {
    forall c | 0 <= c < |calls| :: CallerOk(calls[c], s.contents[c], s.phases[c], s.madeIn[c])
  }

  /** Creates took effect in different epochs, none of them to come; that of the present epoch explains the entry unless it was replaced. */
  ghost predicate EpochsOk(calls: seq<Call>, s: State)
    requires Shaped(calls, s)
  {
    && (forall c | 0 <= c < |calls| && s.madeIn[c].Some? :: s.madeIn[c].value <= s.epoch)
    && (forall c, d | 0 <= c < |calls| && 0 <= d < |calls| && s.madeIn[c].Some? && s.madeIn[c] == s.madeIn[d] :: c == d)
    && (forall c | 0 <= c < |calls| && s.madeIn[c] == Some(s.epoch) :: s.entry.Some? && (s.replaced || s.entry == Some(By(c))))
  }

  /** The entry is the initial file, a whole put, or the file of the conditional create of this epoch. */
  ghost predicate EntryOk(calls: seq<Call>, s: State)
    requires Shaped(calls, s)
  {
    && (s.replaced ==> s.entry.Some?)
    && (s.entry == Some(Initial) ==> s.replaced)
    && (s.entry.Some? && s.entry.value.By? ==>
          var c := s.entry.value.caller;
          && c < |calls| && (s.replaced <==> !calls[c].exclusive)
          && (calls[c].exclusive ==> s.madeIn[c] == Some(s.epoch))
          && (!calls[c].exclusive ==> s.contents[c] == calls[c].body && s.phases[c] in {Won, Cleaning, Failed}))
  }

  ghost predicate Inv(calls: seq<Call>, s: State) {
    Shaped(calls, s) && CallersOk(calls, s) && EpochsOk(calls, s) && EntryOk(calls, s)
  }

  /** A step that only moves call c, and perhaps writes to a file that is not a put under the key. */
  lemma MovedOk(calls: seq<Call>, s: State, t: State, c: nat)
    requires Inv(calls, s) && c < |calls| && Shaped(calls, t)
    requires t == s.(phases := t.phases, contents := t.contents)
    requires t.phases == s.phases[c := t.phases[c]] && t.contents == s.contents[c := t.contents[c]]
    requires CallerOk(calls[c], t.contents[c], t.phases[c], t.madeIn[c])
    requires !calls[c].exclusive && s.entry == Some(By(c)) ==> t.contents == s.contents && t.phases[c] in {Won, Cleaning, Failed}
    ensures Inv(calls, t)
  {
    assert CallersOk(calls, t) by {
      forall d | 0 <= d < |calls|
        ensures CallerOk(calls[d], t.contents[d], t.phases[d], t.madeIn[d])
      {
        assert CallerOk(calls[d], s.contents[d], s.phases[d], s.madeIn[d]);
      }
    }
  }

  lemma MadeOk(calls: seq<Call>, s: State, c: nat, phase: Phase)
    requires Inv(calls, s) && c < |calls| && calls[c].exclusive && s.phases[c] == Ready && s.entry == None && phase in {Writing(0), Failed}
    ensures Inv(calls, Made(s, c, phase))
  {
    var t := Made(s, c, phase);
    assert CallerOk(calls[c], s.contents[c], s.phases[c], s.madeIn[c]);
    assert CallersOk(calls, t) by {
      forall d | 0 <= d < |calls|
        ensures CallerOk(calls[d], t.contents[d], t.phases[d], t.madeIn[d])
      {
        assert CallerOk(calls[d], s.contents[d], s.phases[d], s.madeIn[d]);
      }
    }
  }

  lemma RemovedOk(calls: seq<Call>, s: State)
    requires Inv(calls, s)
    ensures Inv(calls, Removed(s))
  {
    assert CallersOk(calls, Removed(s)) by {
      forall d | 0 <= d < |calls|
        ensures CallerOk(calls[d], Removed(s).contents[d], Removed(s).phases[d], Removed(s).madeIn[d])
      {
        assert CallerOk(calls[d], s.contents[d], s.phases[d], s.madeIn[d]);
      }
    }
  }

  lemma RenameOk(calls: seq<Call>, s: State, c: nat, applied: bool, replied: bool)
    requires Inv(calls, s) && Enabled(calls, s, Rename(c, applied, replied))
    ensures Inv(calls, ApplyRename(s, c, applied, replied))
  {
    var t := ApplyRename(s, c, applied, replied);
    assert CallersOk(calls, t) by {
      forall d | 0 <= d < |calls|
        ensures CallerOk(calls[d], t.contents[d], t.phases[d], t.madeIn[d])
      {
        assert CallerOk(calls[d], s.contents[d], s.phases[d], s.madeIn[d]);
      }
    }
    assert CallerOk(calls[c], s.contents[c], s.phases[c], s.madeIn[c]);
  }

  lemma CleanupOk(calls: seq<Call>, s: State, c: nat, applied: bool)
    requires Inv(calls, s) && Enabled(calls, s, Cleanup(c, applied))
    ensures Inv(calls, ApplyCleanup(calls, s, c, applied))
  {
    var u := if applied && calls[c].exclusive then Removed(s) else s;
    RemovedOk(calls, s);
    assert CallerOk(calls[c], u.contents[c], u.phases[c], u.madeIn[c]);
    MovedOk(calls, u, To(u, c, Failed), c);
  }

  lemma CreateOk(calls: seq<Call>, s: State, e: Event)
    requires Inv(calls, s) && Enabled(calls, s, e) && (e.CreateReplied? || e.CreateUnanswered?)
    ensures Inv(calls, Apply(calls, s, e))
  {
    var c := e.c;
    assert CallerOk(calls[c], s.contents[c], s.phases[c], s.madeIn[c]);
    if calls[c].exclusive && s.entry == None && (e.CreateReplied? || e.applied) {
      MadeOk(calls, s, c, if e.CreateReplied? then Writing(0) else Failed);
    } else {
      MovedOk(calls, s, Apply(calls, s, e), c);
    }
  }

  lemma TransferOk(calls: seq<Call>, s: State, e: Event)
    requires Inv(calls, s) && Enabled(calls, s, e) && (e.Write? || e.WriteFailed? || e.Flush? || e.Close?)
    ensures Inv(calls, Apply(calls, s, e))
  {
    var c := e.c;
    assert CallerOk(calls[c], s.contents[c], s.phases[c], s.madeIn[c]);
    assert calls[c].body[..|calls[c].body|] == calls[c].body;
    MovedOk(calls, s, Apply(calls, s, e), c);
  }

  /** Every step of every call keeps the invariant. */
  lemma StepKeepsInv(calls: seq<Call>, s: State, e: Event)
    requires Inv(calls, s) && Enabled(calls, s, e)
    ensures Inv(calls, Apply(calls, s, e))
  {
    match e
    case CreateReplied(_) => CreateOk(calls, s, e);
    case CreateUnanswered(_, _) => CreateOk(calls, s, e);
    case Rename(c, applied, replied) => RenameOk(calls, s, c, applied, replied);
    case Cleanup(c, applied) => CleanupOk(calls, s, c, applied);
    case Delete => RemovedOk(calls, s);
    case _ => TransferOk(calls, s, e);
  }

  lemma {:induction false} RunKeepsInv(calls: seq<Call>, s: State, events: seq<Event>, t: State)
    requires Inv(calls, s) && Run(calls, s, events, t)
    ensures Inv(calls, t)
    decreases |events|
  {
    if events != [] {
      StepKeepsInv(calls, s, events[0]);
      RunKeepsInv(calls, Apply(calls, s, events[0]), events[1..], t);
    }
  }

  lemma ReachableInv(calls: seq<Call>, s: State)
    requires Reachable(calls, s)
    ensures Inv(calls, s)
  {
    var s0, events :| Init(calls, s0) && Run(calls, s0, events, s);
    RunKeepsInv(calls, s0, events, s);
  }
}
