/** What every reachable state of the object store keeps. */
module ObjectStoreInvariant {
  import opened Wrappers
  import opened ByteStrings
  import opened Keys
  import opened TempNames
  import opened ObjectAgreement
  import opened ObjectStore

  ghost predicate WellPlaced(call: Call) {
    if call.Upload? then call.paths.Valid() && call.paths.bucket != INTERNAL_STORAGE_DIR
    else call.bucket != INTERNAL_STORAGE_DIR
         && ObjectPath(call.bucket, call.key) == Ok(call.data) && ObjectMetadataPath(call.bucket, call.key) == Ok(call.sidecar)
         && call.data != call.sidecar
  }

  /** The file, unless it has been swept, holds all the upload was given, unless a chunk failed. */
  ghost predicate HoldsAll(files: Files, path: string, call: Call)
    requires call.Upload?
  {
    path in files ==> files[path].Data? && (!call.failed ==> files[path].bytes == call.hashed)
  }

  ghost predicate HoldsInfo(files: Files, call: Call, sha256: Bytes -> string)
    requires call.Upload?
  {
    call.paths.sidecarTemp in files ==> files[call.paths.sidecarTemp] == Sidecar(call.Info(sha256))
  }

  /** What the files hold for an upload in progress; only files that look temporary can have been swept. */
  ghost predicate UploadOk(files: Files, call: Call, sha256: Bytes -> string)
    requires call.Upload?
  {
    var p := call.paths;
    match call.phase
    case Open => HoldsAll(files, p.temp, call)
    case Described => HoldsAll(files, p.temp, call) && HoldsInfo(files, call, sha256)
    case Placed => HoldsAll(files, p.data, call) && HoldsInfo(files, call, sha256) && (p.data in files || IsUploading(p.data))
    case _ => true
  }

  /** Only an upload past its data rename counts as placed, and it is never reported aborted. */
  predicate PlacedOk(call: Call) {
    call.Upload? ==>
      match call.phase
      case Open => !call.placed
      case Described => !call.placed
      case Placed => call.placed
      case CleaningBoth(_) => !call.placed
      case CleaningSidecar(outcome) => outcome == Aborted ==> !call.placed
      case Ended(outcome) => (outcome == Aborted ==> !call.placed) && (outcome == Succeeded ==> call.placed)
      case _ => true
  }

  /** The part of `PlacedOk` that concerns how a call may still end. */
  predicate OutcomeOk(call: Call) {
    (call.phase.CleaningBoth? || call.phase.CleaningSidecar?) ==> call.phase.outcome in {Failed, Aborted}
  }

  ghost predicate CallOk(files: Files, call: Call, sha256: Bytes -> string) {
    && PlacedOk(call) && OutcomeOk(call)
    && (call.Live() ==> WellPlaced(call) && (call.Upload? ==> UploadOk(files, call, sha256)))
  }

  ghost predicate CallsOk(s: State, sha256: Bytes -> string) {
    forall c | c in s.calls :: CallOk(s.files, s.calls[c], sha256)
  }

  /** Calls in progress have no path in common. */
  ghost predicate Apart(s: State) {
    forall c, d | c in s.calls && d in s.calls && c != d && s.calls[c].Live() && s.calls[d].Live() ::
      s.calls[c].Own() !! s.calls[d].Own()
  }

  /** An upload that may have put its object out of agreement: data in place, and not completed with every chunk written. */
  predicate Blamed(call: Call) {
    call.Upload? && call.placed && (call.phase != Ended(Succeeded) || call.failed)
  }

  /** Whatever is in the window has a call to blame for it. */
  ghost predicate WindowOk(s: State) {
    forall id | id in s.window :: exists c :: c in s.calls && s.calls[c].Id() == id && Blamed(s.calls[c])
  }

  ghost predicate Inv(s: State, sha256: Bytes -> string) {
    CallsOk(s, sha256) && Apart(s) && Consistent(Snapshot(s.files, s.window), sha256) && WindowOk(s)
  }

  lemma InitOk(s: State, sha256: Bytes -> string)
    requires Init(s, sha256)
    ensures Inv(s, sha256)
  {
  }

  // ---- One call moves ----

  /** A call is not disturbed by work on paths it does not own. */
  lemma Undisturbed(files: Files, after: Files, touched: set<string>, call: Call, sha256: Bytes -> string)
    requires CallOk(files, call, sha256) && Only(files, after, touched) && (call.Live() ==> call.Own() !! touched)
    ensures CallOk(after, call, sha256)
  {
    if call.Live() && call.Upload? {
      var p := call.paths;
      assert forall path | path in call.Own() :: At(files, path) == At(after, path);
      assert p.temp in call.Own() && p.sidecarTemp in call.Own() && p.data in call.Own();
      assert At(files, p.temp) == At(after, p.temp) && At(files, p.data) == At(after, p.data);
    }
  }

  /** t is s with call c further on and nothing touched but its own paths. */
  ghost predicate Advanced(s: State, t: State, c: nat, call: Call) {
    && c in s.calls && s.calls[c].Live() && t.calls == s.calls[c := call]
    && call.Own() == s.calls[c].Own() && Only(s.files, t.files, s.calls[c].Own())
  }

  lemma AdvancedOk(s: State, t: State, c: nat, call: Call, sha256: Bytes -> string)
    requires CallsOk(s, sha256) && Apart(s) && Advanced(s, t, c, call) && CallOk(t.files, call, sha256)
    ensures CallsOk(t, sha256) && Apart(t)
  {
    forall d | d in t.calls
      ensures CallOk(t.files, t.calls[d], sha256)
    {
      if d != c {
        assert CallOk(s.files, s.calls[d], sha256);
        Undisturbed(s.files, t.files, s.calls[c].Own(), s.calls[d], sha256);
      }
    }
  }

  /** The window keeps its causes when it does not grow and c stays as much to blame as it was. */
  lemma WindowKept(s: State, t: State, c: nat, call: Call)
    requires WindowOk(s) && c in s.calls && t.calls == s.calls[c := call] && call.Id() == s.calls[c].Id()
    requires t.window <= s.window && (Blamed(s.calls[c]) && call.Id() in t.window ==> Blamed(call))
    ensures WindowOk(t)
  {
    forall id | id in t.window
      ensures exists d :: d in t.calls && t.calls[d].Id() == id && Blamed(t.calls[d])
    {
      var d :| d in s.calls && s.calls[d].Id() == id && Blamed(s.calls[d]);
      assert d in t.calls && t.calls[d].Id() == id && Blamed(t.calls[d]);
    }
  }

  lemma WindowWidened(s: State, t: State, c: nat, call: Call)
    requires WindowOk(s) && c in s.calls && t.calls == s.calls[c := call] && call.Id() == s.calls[c].Id()
    requires t.window <= s.window + {call.Id()} && Blamed(call)
    ensures WindowOk(t)
  {
    forall id | id in t.window
      ensures exists d :: d in t.calls && t.calls[d].Id() == id && Blamed(t.calls[d])
    {
      if id == call.Id() {
        assert c in t.calls && t.calls[c].Id() == id && Blamed(t.calls[c]);
      } else {
        var d :| d in s.calls && s.calls[d].Id() == id && Blamed(s.calls[d]);
        assert d in t.calls && t.calls[d].Id() == id && Blamed(t.calls[d]);
      }
    }
  }

  /** Work on temporary files alone leaves every published file as it was. */
  lemma TempsHidden(files: Files, after: Files, window: set<(string, string)>, temps: set<string>, sha256: Bytes -> string)
    requires Only(files, after, temps) && (forall path | path in temps :: IsUploading(path))
    requires Consistent(Snapshot(files, window), sha256)
    ensures Consistent(Snapshot(after, window), sha256)
  {
    HiddenStep(files, after, window, sha256);
  }

  /** An event of c that works on its temporary files only. */
  lemma QuietStep(s: State, t: State, c: nat, call: Call, sha256: Bytes -> string)
    requires Inv(s, sha256) && c in s.calls && s.calls[c].Live() && s.calls[c].Upload?
    requires t.calls == s.calls[c := call] && call.Upload? && call.paths == s.calls[c].paths && t.window == s.window
    requires Only(s.files, t.files, s.calls[c].Temps()) && CallOk(t.files, call, sha256)
    requires Blamed(s.calls[c]) ==> Blamed(call)
    ensures Inv(t, sha256)
  {
    var was := s.calls[c];
    assert CallOk(s.files, was, sha256);
    assert Only(s.files, t.files, was.Own());
    AdvancedOk(s, t, c, call, sha256);
    TempsHidden(s.files, t.files, s.window, was.Temps(), sha256);
    WindowKept(s, t, c, call);
  }

  lemma ChunkOk(s: State, c: nat, bytes: Bytes, taken: nat, ok: bool, sha256: Bytes -> string)
    requires Inv(s, sha256) && InPhase(s, c, Chunk(c, bytes, taken, ok))
    ensures Inv(ApplyChunk(s, c, bytes, taken, ok), sha256)
  {
    assert CallOk(s.files, s.calls[c], sha256);
    var t := ApplyChunk(s, c, bytes, taken, ok);
    QuietStep(s, t, c, t.calls[c], sha256);
  }

  lemma DescribeOk(s: State, c: nat, sha256: Bytes -> string)
    requires Inv(s, sha256) && InPhase(s, c, Describe(c))
    ensures Inv(Apply(s, Describe(c), sha256), sha256)
  {
    assert CallOk(s.files, s.calls[c], sha256);
    var t := Apply(s, Describe(c), sha256);
    QuietStep(s, t, c, t.calls[c], sha256);
  }

  predicate TempEvent(e: Event) {
    e.DescribeFails? || e.Abort? || e.RemoveTemp? || e.RemoveSidecarTemp? || ((e.PlaceData? || e.PlaceSidecar?) && !e.ok)
  }

  lemma TempEventOk(s: State, e: Event, sha256: Bytes -> string)
    requires Inv(s, sha256) && TempEvent(e) && InPhase(s, e.c, e)
    ensures Inv(Apply(s, e, sha256), sha256)
  {
    if e.RemoveTemp? || e.RemoveSidecarTemp? {
      CleaningOk(s, e, sha256);
    } else {
      GivingUpOk(s, e, sha256);
    }
  }

  lemma CleaningOk(s: State, e: Event, sha256: Bytes -> string)
    requires Inv(s, sha256) && (e.RemoveTemp? || e.RemoveSidecarTemp?) && InPhase(s, e.c, e)
    ensures Inv(Apply(s, e, sha256), sha256)
  {
    assert CallOk(s.files, s.calls[e.c], sha256);
    var t := Apply(s, e, sha256);
    QuietStep(s, t, e.c, t.calls[e.c], sha256);
  }

  lemma GivingUpOk(s: State, e: Event, sha256: Bytes -> string)
    requires Inv(s, sha256) && TempEvent(e) && !e.RemoveTemp? && !e.RemoveSidecarTemp? && InPhase(s, e.c, e)
    ensures Inv(Apply(s, e, sha256), sha256)
  {
    assert CallOk(s.files, s.calls[e.c], sha256);
    var t := Apply(s, e, sha256);
    QuietStep(s, t, e.c, t.calls[e.c], sha256);
  }

  lemma StopOk(s: State, c: nat, sha256: Bytes -> string)
    requires Inv(s, sha256) && InPhase(s, c, Stop(c))
    ensures Inv(Apply(s, Stop(c), sha256), sha256)
  {
    var t := Apply(s, Stop(c), sha256);
    assert CallOk(s.files, s.calls[c], sha256);
    AdvancedOk(s, t, c, t.calls[c], sha256);
    WindowKept(s, t, c, t.calls[c]);
  }

  /** A call bears the loss of any file that looks temporary. */
  lemma SweptOk(files: Files, path: string, call: Call, sha256: Bytes -> string)
    requires CallOk(files, call, sha256) && IsUploading(path)
    ensures CallOk(files - {path}, call, sha256)
  {
  }

  lemma SweepOk(s: State, path: string, sha256: Bytes -> string)
    requires Inv(s, sha256) && Enabled(s, Sweep(path))
    ensures Inv(Apply(s, Sweep(path), sha256), sha256)
  {
    var t := Apply(s, Sweep(path), sha256);
    assert Only(s.files, t.files, {path});
    TempsHidden(s.files, t.files, s.window, {path}, sha256);
    forall d | d in t.calls
      ensures CallOk(t.files, t.calls[d], sha256)
    {
      assert CallOk(s.files, s.calls[d], sha256);
      SweptOk(s.files, path, s.calls[d], sha256);
    }
    assert WindowOk(t) by {
      forall id | id in t.window
        ensures exists c :: c in t.calls && t.calls[c].Id() == id && Blamed(t.calls[c])
      {
        var c :| c in s.calls && s.calls[c].Id() == id && Blamed(s.calls[c]);
        assert c in t.calls;
      }
    }
  }

  // ---- Publishing ----

  lemma DataAgrees(files: Files, window: set<(string, string)>, call: Call, sha256: Bytes -> string)
    requires call.Upload? && WellPlaced(call) && call.paths.temp in files && Consistent(Snapshot(files, window), sha256)
    ensures Consistent(Snapshot(Moved(files, call.paths.temp, call.paths.data), Widened(files, window, call)), sha256)
  {
    var p := call.paths;
    var renamed := Moved(files, p.temp, p.data);
    MovedElsewhere(files, p.temp, p.data);
    ObjectStep(files, renamed, window, p.bucket, p.key, sha256);
    if p.sidecar !in files {
      assert At(renamed, p.sidecar) == At(files, p.sidecar) == None;
      CloseWindow(renamed, window, p.bucket, p.key, sha256);
    }
  }

  lemma SidecarAgrees(files: Files, window: set<(string, string)>, call: Call, sha256: Bytes -> string)
    requires call.Upload? && WellPlaced(call) && call.phase.Placed? && UploadOk(files, call, sha256) && call.paths.sidecarTemp in files
    requires Consistent(Snapshot(files, window), sha256)
    ensures Consistent(Snapshot(Moved(files, call.paths.sidecarTemp, call.paths.sidecar), Closed(window, call)), sha256)
  {
    var p := call.paths;
    var renamed := Moved(files, p.sidecarTemp, p.sidecar);
    MovedElsewhere(files, p.sidecarTemp, p.sidecar);
    ObjectStep(files, renamed, window, p.bucket, p.key, sha256);
    if !call.failed {
      assert At(renamed, p.data) == At(files, p.data);
      assert Agrees(renamed, p.bucket, p.key, sha256);
      CloseWindow(renamed, window, p.bucket, p.key, sha256);
    }
  }

  lemma RemovalAgrees(files: Files, window: set<(string, string)>, call: Call, path: string, sha256: Bytes -> string)
    requires call.Deletion? && WellPlaced(call) && path in {call.data, call.sidecar} && Consistent(Snapshot(files, window), sha256)
    ensures Consistent(Snapshot(files - {path}, window - {call.Id()}), sha256)
  {
    var after := files - {path};
    assert forall p | p != path :: At(after, p) == At(files, p);
    ObjectStep(files, after, window, call.bucket, call.key, sha256);
    CloseWindow(after, window, call.bucket, call.key, sha256);
  }

  lemma PlaceDataOk(s: State, c: nat, sha256: Bytes -> string)
    requires Inv(s, sha256) && InPhase(s, c, PlaceData(c, true))
    ensures Inv(ApplyPlaceData(s, c), sha256)
  {
    var call := s.calls[c];
    assert CallOk(s.files, call, sha256);
    var t := ApplyPlaceData(s, c);
    MovedElsewhere(s.files, call.paths.temp, call.paths.data);
    DataAgrees(s.files, s.window, call, sha256);
    AdvancedOk(s, t, c, t.calls[c], sha256);
    WindowWidened(s, t, c, t.calls[c]);
  }

  lemma PlaceSidecarOk(s: State, c: nat, sha256: Bytes -> string)
    requires Inv(s, sha256) && InPhase(s, c, PlaceSidecar(c, true))
    ensures Inv(ApplyPlaceSidecar(s, c), sha256)
  {
    var call := s.calls[c];
    assert CallOk(s.files, call, sha256);
    var t := ApplyPlaceSidecar(s, c);
    MovedElsewhere(s.files, call.paths.sidecarTemp, call.paths.sidecar);
    SidecarAgrees(s.files, s.window, call, sha256);
    AdvancedOk(s, t, c, t.calls[c], sha256);
    if call.failed {
      WindowWidened(s, t, c, t.calls[c]);
    } else {
      WindowKept(s, t, c, t.calls[c]);
    }
  }

  lemma RemoveOk(s: State, c: nat, path: string, phase: Phase, sha256: Bytes -> string)
    requires Inv(s, sha256) && c in s.calls && s.calls[c].Deletion? && s.calls[c].Live() && path in {s.calls[c].data, s.calls[c].sidecar}
    requires phase in {DeletingSidecar, Ended(Succeeded)}
    ensures Inv(ApplyRemove(s, c, path, phase), sha256)
  {
    var call := s.calls[c];
    assert CallOk(s.files, call, sha256);
    var t := ApplyRemove(s, c, path, phase);
    assert Only(s.files, t.files, {path});
    RemovalAgrees(s.files, s.window, call, path, sha256);
    AdvancedOk(s, t, c, t.calls[c], sha256);
    WindowKept(s, t, c, t.calls[c]);
  }

  lemma RemoveFailsOk(s: State, c: nat, sha256: Bytes -> string)
    requires Inv(s, sha256) && c in s.calls && s.calls[c].Deletion? && s.calls[c].Live()
    ensures Inv(Move(s, c, s.files, Ended(Failed)), sha256)
  {
    var t := Move(s, c, s.files, Ended(Failed));
    assert CallOk(s.files, s.calls[c], sha256);
    AdvancedOk(s, t, c, t.calls[c], sha256);
    WindowKept(s, t, c, t.calls[c]);
  }

  // ---- A call begins ----

  /** The published paths of different objects differ, whatever bucket and key they have. */
  lemma ObjectsApart(a: Call, bucket: string, key: string)
    requires WellPlaced(a) && a.Id() != (bucket, key) && ObjectPath(bucket, key).Ok? && bucket != INTERNAL_STORAGE_DIR
    ensures {a.DataPath(), a.SidecarPath()} !! {ObjectPath(bucket, key).value, ObjectMetadataPath(bucket, key).value}
  {
    var (b, k) := a.Id();
    ObjectPathsInjective(b, k, bucket, key);
    DataMeetsSidecar(b, k, bucket, key);
    DataMeetsSidecar(bucket, key, b, k);
  }

  /** t is s with a new call, which owns nothing that a call in progress owns. */
  lemma BegunOk(s: State, t: State, c: nat, call: Call, sha256: Bytes -> string)
    requires CallsOk(s, sha256) && Apart(s) && WindowOk(s)
    requires c !in s.calls && t.calls == s.calls[c := call] && t.window == s.window && CallOk(t.files, call, sha256)
    requires Only(s.files, t.files, call.Temps())
    requires forall d | d in s.calls && s.calls[d].Live() :: s.calls[d].Own() !! call.Own()
    ensures CallsOk(t, sha256) && Apart(t) && WindowOk(t)
  {
    forall d | d in t.calls
      ensures CallOk(t.files, t.calls[d], sha256)
    {
      if d != c {
        assert CallOk(s.files, s.calls[d], sha256);
        Undisturbed(s.files, t.files, call.Temps(), s.calls[d], sha256);
      }
    }
    forall id | id in t.window
      ensures exists d :: d in t.calls && t.calls[d].Id() == id && Blamed(t.calls[d])
    {
      var d :| d in s.calls && s.calls[d].Id() == id && Blamed(s.calls[d]);
      assert d in t.calls && t.calls[d] == s.calls[d];
    }
  }

  /** A call that is let in owns nothing that a call in progress owns. */
  lemma NewcomerApart(s: State, call: Call, d: nat, sha256: Bytes -> string)
    requires CallsOk(s, sha256) && d in s.calls && s.calls[d].Live() && WellPlaced(call)
    requires Unclaimed(s, call.Id()) && Fresh(s, call.Temps(), call.Own())
    ensures s.calls[d].Own() !! call.Own()
  {
    var other := s.calls[d];
    assert CallOk(s.files, other, sha256);
    var (b, k) := call.Id();
    ObjectsApart(other, b, k);
  }

  lemma BeginUploadOk(s: State, e: Event, sha256: Bytes -> string)
    requires Inv(s, sha256) && e.BeginUpload? && Enabled(s, e)
    ensures Inv(Apply(s, e, sha256), sha256)
  {
    var t := Apply(s, e, sha256);
    var call := t.calls[e.c];
    assert call.Own() == e.paths.All();
    forall d | d in s.calls && s.calls[d].Live()
      ensures s.calls[d].Own() !! call.Own()
    {
      NewcomerApart(s, call, d, sha256);
    }
    assert Only(s.files, t.files, call.Temps());
    BegunOk(s, t, e.c, call, sha256);
    TempsHidden(s.files, t.files, s.window, call.Temps(), sha256);
  }

  lemma BeginDeletionOk(s: State, e: Event, sha256: Bytes -> string)
    requires Inv(s, sha256) && e.BeginDeletion? && Enabled(s, e)
    ensures Inv(Apply(s, e, sha256), sha256)
  {
    var t := Apply(s, e, sha256);
    var call := t.calls[e.c];
    SidecarLonger(e.bucket, e.key);
    assert call.Own() == {call.data, call.sidecar};
    forall d | d in s.calls && s.calls[d].Live()
      ensures s.calls[d].Own() !! call.Own()
    {
      NewcomerApart(s, call, d, sha256);
    }
    BegunOk(s, t, e.c, call, sha256);
  }

  // ---- Every step ----

  lemma UploadStepOk(s: State, e: Event, sha256: Bytes -> string)
    requires Inv(s, sha256) && Enabled(s, e) && !TempEvent(e) && (e.Chunk? || e.Describe? || e.PlaceData? || e.PlaceSidecar?)
    ensures Inv(Apply(s, e, sha256), sha256)
  {
    match e
    case Chunk(c, bytes, taken, ok) => ChunkOk(s, c, bytes, taken, ok, sha256);
    case Describe(c) => DescribeOk(s, c, sha256);
    case PlaceData(c, _) => PlaceDataOk(s, c, sha256);
    case PlaceSidecar(c, _) => PlaceSidecarOk(s, c, sha256);
  }

  lemma RemovalStepOk(s: State, e: Event, sha256: Bytes -> string)
    requires Inv(s, sha256) && Enabled(s, e) && (e.RemoveData? || e.RemoveSidecar?)
    ensures Inv(Apply(s, e, sha256), sha256)
  {
    if !e.ok {
      RemoveFailsOk(s, e.c, sha256);
    } else if e.RemoveData? {
      RemoveOk(s, e.c, s.calls[e.c].data, DeletingSidecar, sha256);
    } else {
      RemoveOk(s, e.c, s.calls[e.c].sidecar, Ended(Succeeded), sha256);
    }
  }

  /** Every step of every call keeps the invariant. */
  lemma StepOk(s: State, e: Event, sha256: Bytes -> string)
    requires Inv(s, sha256) && Enabled(s, e)
    ensures Inv(Apply(s, e, sha256), sha256)
  {
    if TempEvent(e) {
      TempEventOk(s, e, sha256);
    } else if e.BeginUpload? {
      BeginUploadOk(s, e, sha256);
    } else if e.BeginDeletion? {
      BeginDeletionOk(s, e, sha256);
    } else if e.RemoveData? || e.RemoveSidecar? {
      RemovalStepOk(s, e, sha256);
    } else if e.Stop? {
      StopOk(s, e.c, sha256);
    } else if e.Sweep? {
      SweepOk(s, e.path, sha256);
    } else {
      UploadStepOk(s, e, sha256);
    }
  }

  lemma {:induction false} RunOk(s: State, events: seq<Event>, t: State, sha256: Bytes -> string)
    requires Inv(s, sha256) && Run(s, events, t, sha256)
    ensures Inv(t, sha256)
    decreases |events|
  {
    if events != [] {
      StepOk(s, events[0], sha256);
      RunOk(Apply(s, events[0], sha256), events[1..], t, sha256);
    }
  }

  lemma ReachableOk(t: State, sha256: Bytes -> string)
    requires Reachable(t, sha256)
    ensures Inv(t, sha256)
  {
    var s, events :| Init(s, sha256) && Run(s, events, t, sha256);
    InitOk(s, sha256);
    RunOk(s, events, t, sha256);
  }
}
