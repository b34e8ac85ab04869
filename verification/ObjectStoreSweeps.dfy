/** Uploads of objects whose temporary files are swept while they run. */
module ObjectStoreSweeps {
  import opened ByteStrings
  import opened ObjectAgreement
  import opened ObjectStore
  import opened ObjectStoreInvariant
  import opened ObjectStoreTheorems

  /** The paths an event may touch. */
  ghost function Touched(s: State, e: Event): set<string>
    requires Enabled(s, e)
  {
    match e
    case BeginUpload(_, paths, _, _, _) => paths.Temps()
    case BeginDeletion(_, _, _) => {}
    case Sweep(path) => {path}
    case _ => s.calls[e.c].Own()
  }

  lemma StepTouches(s: State, e: Event, sha256: Bytes -> string)
    requires Enabled(s, e)
    ensures Only(s.files, Apply(s, e, sha256).files, Touched(s, e))
  {
  }

  /** The call an event belongs to moves on; every other call stays as it is. */
  lemma OthersStay(s: State, e: Event, d: nat, sha256: Bytes -> string)
    requires Enabled(s, e) && d in s.calls && (e.Sweep? || e.c != d)
    ensures d in Apply(s, e, sha256).calls && Apply(s, e, sha256).calls[d] == s.calls[d]
  {
  }

  /** No event removes or makes a file of a call in progress that it does not belong to, except by sweeping it. */
  lemma OthersTouchNothing(s: State, e: Event, d: nat, path: string, sha256: Bytes -> string)
    requires Inv(s, sha256) && Enabled(s, e) && d in s.calls && s.calls[d].Live() && path in s.calls[d].Own()
    requires if e.Sweep? then e.path != path else e.c != d
    ensures At(Apply(s, e, sha256).files, path) == At(s.files, path)
  {
    StepTouches(s, e, sha256);
    assert path !in Touched(s, e);
  }

  /** So a file of a call in progress that is gone stays gone until the call itself makes it. */
  lemma StaysGone(s: State, e: Event, d: nat, path: string, sha256: Bytes -> string)
    requires Inv(s, sha256) && Enabled(s, e) && d in s.calls && s.calls[d].Live() && path in s.calls[d].Own()
    requires (e.Sweep? || e.c != d) && path !in s.files
    ensures path !in Apply(s, e, sha256).files
  {
    hide Inv;
    if !(e.Sweep? && e.path == path) {
      OthersTouchNothing(s, e, d, path, sha256);
    }
  }

  // ---- The data's temporary file ----

  /** An upload that has lost its temporary file before its data rename, or is giving up without one. */
  ghost predicate DataLost(files: Files, call: Call) {
    && call.Upload? && !call.placed
    && match call.phase
       case Open => call.paths.temp !in files
       case Described => call.paths.temp !in files
       case Placed => false
       case Ended(outcome) => outcome != Succeeded
       case CleaningBoth(outcome) => outcome != Succeeded
       case CleaningSidecar(outcome) => outcome != Succeeded
       case _ => true
  }

  lemma OwnStepLost(s: State, e: Event, c: nat, sha256: Bytes -> string)
    requires Inv(s, sha256) && Enabled(s, e) && c in s.calls && DataLost(s.files, s.calls[c]) && !e.Sweep? && e.c == c
    ensures var t := Apply(s, e, sha256); c in t.calls && DataLost(t.files, t.calls[c])
  {
    assert CallOk(s.files, s.calls[c], sha256);
  }

  lemma StepLost(s: State, e: Event, c: nat, sha256: Bytes -> string)
    requires Inv(s, sha256) && Enabled(s, e) && c in s.calls && DataLost(s.files, s.calls[c])
    ensures var t := Apply(s, e, sha256); c in t.calls && DataLost(t.files, t.calls[c])
  {
    if !e.Sweep? && e.c == c {
      OwnStepLost(s, e, c, sha256);
    } else {
      OthersStay(s, e, c, sha256);
      if s.calls[c].phase.Open? || s.calls[c].phase.Described? {
        StaysGone(s, e, c, s.calls[c].paths.temp, sha256);
      }
    }
  }

  lemma {:induction false} RunLost(s: State, events: seq<Event>, t: State, c: nat, sha256: Bytes -> string)
    requires Inv(s, sha256) && Run(s, events, t, sha256) && c in s.calls && DataLost(s.files, s.calls[c])
    ensures c in t.calls && DataLost(t.files, t.calls[c])
    decreases |events|
  {
    if events != [] {
      StepLost(s, events[0], c, sha256);
      StepOk(s, events[0], sha256);
      RunLost(Apply(s, events[0], sha256), events[1..], t, c, sha256);
    }
  }

  /** An upload whose temporary file is swept before its data rename can only fail, and publishes nothing, in every run. */
  lemma SweptUploadOnlyFails(s: State, events: seq<Event>, t: State, c: nat, sha256: Bytes -> string)
    requires Reachable(s, sha256) && Run(s, events, t, sha256) && c in s.calls && s.calls[c].Upload?
    requires (s.calls[c].phase.Open? || s.calls[c].phase.Described?) && s.calls[c].paths.temp !in s.files
    ensures c in t.calls && t.calls[c].phase != Ended(Succeeded)
    ensures forall i | 0 <= i < |events| :: Publishing(events[i]) ==> events[i].c != c
  {
    ReachableOk(s, sha256);
    assert CallOk(s.files, s.calls[c], sha256);
    RunLost(s, events, t, c, sha256);
    UnplacedPublishedNothing(s, events, t, c, sha256);
  }

  // ---- The sidecar's temporary file ----

  /** An upload that has lost its sidecar's temporary file after its data rename, or has given up there. */
  ghost predicate SidecarLost(files: Files, call: Call) {
    && call.Upload?
    && match call.phase
       case Placed => call.paths.sidecarTemp !in files
       case CleaningSidecar(outcome) => outcome != Succeeded
       case Ended(outcome) => outcome != Succeeded
       case _ => false
  }

  lemma StepSidecarLost(s: State, e: Event, c: nat, sha256: Bytes -> string)
    requires Inv(s, sha256) && Enabled(s, e) && c in s.calls && SidecarLost(s.files, s.calls[c])
    ensures var t := Apply(s, e, sha256); c in t.calls && SidecarLost(t.files, t.calls[c])
  {
    if e.Sweep? || e.c != c {
      OthersStay(s, e, c, sha256);
      if s.calls[c].phase.Placed? {
        StaysGone(s, e, c, s.calls[c].paths.sidecarTemp, sha256);
      }
    }
  }

  /** A call for the object begins. */
  predicate Claims(e: Event, id: (string, string)) {
    || (e.BeginUpload? && (e.paths.bucket, e.paths.key) == id)
    || (e.BeginDeletion? && (e.bucket, e.key) == id)
  }

  /** Only call c may be at work on the object. */
  predicate Alone(s: State, id: (string, string), c: nat) {
    forall d | d in s.calls && s.calls[d].Live() && s.calls[d].Id() == id :: d == c
  }

  lemma LiveIsAlone(s: State, c: nat, sha256: Bytes -> string)
    requires Inv(s, sha256) && c in s.calls && s.calls[c].Live()
    ensures Alone(s, s.calls[c].Id(), c)
  {
    assert CallOk(s.files, s.calls[c], sha256);
    forall d | d in s.calls && s.calls[d].Live() && s.calls[d].Id() == s.calls[c].Id()
      ensures d == c
    {
      assert CallOk(s.files, s.calls[d], sha256);
      assert s.calls[d].DataPath() in s.calls[d].Own() && s.calls[c].DataPath() in s.calls[c].Own();
    }
  }

  lemma StepAlone(s: State, e: Event, id: (string, string), c: nat, sha256: Bytes -> string)
    requires Enabled(s, e) && Alone(s, id, c) && !Claims(e, id)
    ensures Alone(Apply(s, e, sha256), id, c)
  {
  }

  /** Only a finished upload or a removal takes an object out of the window. */
  lemma StepKeepsWindow(s: State, e: Event, id: (string, string), c: nat, sha256: Bytes -> string)
    requires Enabled(s, e) && Alone(s, id, c) && c in s.calls && SidecarLost(s.files, s.calls[c]) && id in s.window
    ensures id in Apply(s, e, sha256).window
  {
  }

  /**
    If the sidecar's temporary file is swept between the two renames, the upload can only fail, and an object that
    was in the window stays there as long as no other call for it begins, in every run.
   */
  lemma SweptSidecarLeavesWindow(s: State, events: seq<Event>, t: State, c: nat, sha256: Bytes -> string)
    requires Reachable(s, sha256) && Run(s, events, t, sha256)
    requires c in s.calls && s.calls[c].Upload? && s.calls[c].phase.Placed? && s.calls[c].paths.sidecarTemp !in s.files
    ensures c in t.calls && t.calls[c].phase != Ended(Succeeded)
    ensures s.calls[c].Id() in s.window && (forall i | 0 <= i < |events| :: !Claims(events[i], s.calls[c].Id())) ==>
              s.calls[c].Id() in t.window
  {
    ReachableOk(s, sha256);
    LiveIsAlone(s, c, sha256);
    RunSidecarLost(s, events, t, c, sha256);
    if s.calls[c].Id() in s.window && (forall i | 0 <= i < |events| :: !Claims(events[i], s.calls[c].Id())) {
      RunKeepsWindow(s, events, t, s.calls[c].Id(), c, sha256);
    }
  }

  lemma {:induction false} RunSidecarLost(s: State, events: seq<Event>, t: State, c: nat, sha256: Bytes -> string)
    requires Inv(s, sha256) && Run(s, events, t, sha256) && c in s.calls && SidecarLost(s.files, s.calls[c])
    ensures c in t.calls && SidecarLost(t.files, t.calls[c])
    decreases |events|
  {
    if events != [] {
      StepSidecarLost(s, events[0], c, sha256);
      StepOk(s, events[0], sha256);
      RunSidecarLost(Apply(s, events[0], sha256), events[1..], t, c, sha256);
    }
  }

  lemma {:induction false} RunKeepsWindow(s: State, events: seq<Event>, t: State, id: (string, string), c: nat, sha256: Bytes -> string)
    requires Inv(s, sha256) && Run(s, events, t, sha256) && c in s.calls && SidecarLost(s.files, s.calls[c])
    requires Alone(s, id, c) && id in s.window && (forall i | 0 <= i < |events| :: !Claims(events[i], id))
    ensures id in t.window
    decreases |events|
  {
    if events != [] {
      var e := events[0];
      StepOk(s, e, sha256);
      StepSidecarLost(s, e, c, sha256);
      StepAlone(s, e, id, c, sha256);
      StepKeepsWindow(s, e, id, c, sha256);
      assert forall i | 0 <= i < |events[1..]| :: events[1..][i] == events[i + 1];
      RunKeepsWindow(Apply(s, e, sha256), events[1..], t, id, c, sha256);
    }
  }
}
