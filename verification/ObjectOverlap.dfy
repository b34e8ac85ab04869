/**
  Two uploads of one object at once. `ObjectStore` lets calls for one object follow each other only; here a second
  upload joins while the first is in progress, and the four renames of the two run in any order.
 */
module ObjectOverlap {
  import opened Wrappers
  import opened ByteStrings
  import opened Keys
  import opened TempNames
  import opened ObjectAgreement
  import opened ObjectStore
  import opened ObjectStoreWitnesses

  // ---- Whose files come to lie under the object ----

  /** The event is a step of one of the two uploads. */
  predicate Ours(e: Event, c: nat, d: nat) {
    !e.BeginUpload? && !e.BeginDeletion? && !e.Sweep? && e.c in {c, d}
  }

  predicate AllOurs(events: seq<Event>, c: nat, d: nat) {
    forall i | 0 <= i < |events| :: Ours(events[i], c, d)
  }

  lemma OursFirst(events: seq<Event>, c: nat, d: nat)
    requires AllOurs(events, c, d) && events != []
    ensures Ours(events[0], c, d) && AllOurs(events[1..], c, d)
  {
  }

  function DataHolder(e: Event, holder: Option<nat>): Option<nat> {
    if e.PlaceData? && e.ok then Some(e.c) else holder
  }

  function SidecarHolder(e: Event, holder: Option<nat>): Option<nat> {
    if e.PlaceSidecar? && e.ok then Some(e.c) else holder
  }

  /** The upload whose data rename is the last in these events, if there is one. */
  function LastData(events: seq<Event>, holder: Option<nat>): Option<nat> {
    if events == [] then holder else LastData(events[1..], DataHolder(events[0], holder))
  }

  /** The upload whose sidecar rename is the last. */
  function LastSidecar(events: seq<Event>, holder: Option<nat>): Option<nat> {
    if events == [] then holder else LastSidecar(events[1..], SidecarHolder(events[0], holder))
  }

  /** An upload that lacks no chunk, described or further on, with its temporary files as it left them. */
  ghost predicate Underway(s: State, x: nat, sha256: Bytes -> string) {
    && x in s.calls && s.calls[x].Upload? && !s.calls[x].failed
    && var call := s.calls[x];
       match call.phase
       case Described =>
         At(s.files, call.paths.temp) == Some(Data(call.hashed)) && At(s.files, call.paths.sidecarTemp) == Some(Sidecar(call.Info(sha256)))
       case Placed => At(s.files, call.paths.sidecarTemp) == Some(Sidecar(call.Info(sha256)))
       case CleaningBoth(outcome) => outcome != Succeeded
       case CleaningSidecar(outcome) => outcome != Succeeded
       case Ended(_) => true
       case _ => false
  }

  predicate Finished(call: Call) {
    call.phase == Ended(Succeeded)
  }

  /** The paths of two writers of one object: the published ones are shared, the temporary ones are not. */
  predicate Shared(p: Paths, q: Paths) {
    && q.bucket == p.bucket && q.key == p.key && q.data == p.data && q.sidecar == p.sidecar && p.data != p.sidecar
    && p.temp != p.sidecarTemp && q.temp != q.sidecarTemp && p.Temps() !! q.Temps()
    && {p.data, p.sidecar} !! p.Temps() + q.Temps()
  }

  /** Two uploads of one object, each with its own temporary files. */
  ghost predicate Pair(s: State, c: nat, d: nat, sha256: Bytes -> string) {
    c != d && Underway(s, c, sha256) && Underway(s, d, sha256) && Shared(s.calls[c].paths, s.calls[d].paths)
  }

  /** The files of the object are those of the upload that renamed them last. */
  ghost predicate Held(s: State, c: nat, d: nat, data: Option<nat>, sidecar: Option<nat>, sha256: Bytes -> string)
    requires Pair(s, c, d, sha256)
  {
    && (data.Some? ==> data.value in {c, d} && At(s.files, s.calls[c].paths.data) == Some(Data(s.calls[data.value].hashed)))
    && (sidecar.Some? ==>
          sidecar.value in {c, d} && At(s.files, s.calls[c].paths.sidecar) == Some(Sidecar(s.calls[sidecar.value].Info(sha256))))
  }

  /** Who has renamed what, and that the window is left when both are done. */
  ghost predicate Noted(s: State, c: nat, d: nat, data: Option<nat>, sidecar: Option<nat>)
    requires c in s.calls && d in s.calls
  {
    && (s.calls[c].phase.Placed? || s.calls[d].phase.Placed? || Finished(s.calls[c]) || Finished(s.calls[d]) ==> data.Some?)
    && (Finished(s.calls[c]) || Finished(s.calls[d]) ==> sidecar.Some?)
    && (Finished(s.calls[c]) && Finished(s.calls[d]) ==> s.calls[c].Id() !in s.window)
  }

  ghost predicate Tracked(s: State, c: nat, d: nat, data: Option<nat>, sidecar: Option<nat>, sha256: Bytes -> string) {
    Pair(s, c, d, sha256) && Held(s, c, d, data, sidecar, sha256) && Noted(s, c, d, data, sidecar)
  }

  lemma TrackedSwaps(s: State, c: nat, d: nat, data: Option<nat>, sidecar: Option<nat>, sha256: Bytes -> string)
    requires Tracked(s, c, d, data, sidecar, sha256)
    ensures Tracked(s, d, c, data, sidecar, sha256)
  {
  }

  lemma ByName(temp: string, path: string)
    requires IsUploading(temp) && !IsUploading(path)
    ensures temp != path
  {
  }

  /** No published path of a writer is a temporary one. */
  lemma OwnPaths(p: Paths)
    requires p.Valid() && !IsUploading(p.data)
    ensures p.data !in p.Temps() && p.sidecar !in p.Temps() && p.data != p.sidecar && p.temp != p.sidecarTemp
  {
    ByName(p.temp, p.data);
    ByName(p.temp, p.sidecar);
    ByName(p.sidecarTemp, p.data);
    ByName(p.sidecarTemp, p.sidecar);
  }

  lemma RivalsShare(p: Paths, q: Paths)
    requires Rivals(p, q)
    ensures Shared(p, q)
  {
    SamePaths(p, q);
    OwnPaths(p);
    OwnPaths(q);
  }

  lemma DataRenamePair(s: State, c: nat, d: nat, sha256: Bytes -> string)
    requires Pair(s, c, d, sha256) && InPhase(s, c, PlaceData(c, true))
    ensures Pair(ApplyPlaceData(s, c), c, d, sha256)
    ensures var t, p := ApplyPlaceData(s, c), s.calls[c].paths;
            && t.calls[c] == s.calls[c].(phase := Placed, placed := true) && t.calls[d] == s.calls[d]
            && At(t.files, p.data) == Some(Data(s.calls[c].hashed)) && At(t.files, p.sidecar) == At(s.files, p.sidecar)
  {
    var p := s.calls[c].paths;
    MovedElsewhere(s.files, p.temp, p.data);
  }

  lemma DataRename(s: State, c: nat, d: nat, data: Option<nat>, sidecar: Option<nat>, sha256: Bytes -> string)
    requires Tracked(s, c, d, data, sidecar, sha256) && InPhase(s, c, PlaceData(c, true))
    ensures Tracked(ApplyPlaceData(s, c), c, d, Some(c), sidecar, sha256)
  {
    DataRenamePair(s, c, d, sha256);
  }

  lemma SidecarRenamePair(s: State, c: nat, d: nat, sha256: Bytes -> string)
    requires Pair(s, c, d, sha256) && InPhase(s, c, PlaceSidecar(c, true))
    ensures Pair(ApplyPlaceSidecar(s, c), c, d, sha256)
    ensures var t, p := ApplyPlaceSidecar(s, c), s.calls[c].paths;
            && t.calls[c] == s.calls[c].Goes(Ended(Succeeded)) && t.calls[d] == s.calls[d] && s.calls[c].Id() !in t.window
            && At(t.files, p.sidecar) == Some(Sidecar(s.calls[c].Info(sha256))) && At(t.files, p.data) == At(s.files, p.data)
  {
    var p := s.calls[c].paths;
    MovedElsewhere(s.files, p.sidecarTemp, p.sidecar);
  }

  lemma SidecarRename(s: State, c: nat, d: nat, data: Option<nat>, sidecar: Option<nat>, sha256: Bytes -> string)
    requires Tracked(s, c, d, data, sidecar, sha256) && InPhase(s, c, PlaceSidecar(c, true))
    ensures Tracked(ApplyPlaceSidecar(s, c), c, d, data, Some(c), sha256)
  {
    SidecarRenamePair(s, c, d, sha256);
  }

  predicate Rename(e: Event) {
    (e.PlaceData? || e.PlaceSidecar?) && e.ok
  }

  /** A step of c that renames nothing gives up, removes a temporary file of its own, or stops. */
  lemma OtherStep(s: State, e: Event, c: nat, d: nat, data: Option<nat>, sidecar: Option<nat>, sha256: Bytes -> string)
    requires Tracked(s, c, d, data, sidecar, sha256) && Enabled(s, e) && Ours(e, c, d) && e.c == c && !Rename(e)
    ensures Tracked(Apply(s, e, sha256), c, d, data, sidecar, sha256)
  {
    var p := s.calls[c].paths;
    OtherStepTouches(s, e, sha256);
    var t := Apply(s, e, sha256);
    assert forall path | path !in p.Temps() :: At(t.files, path) == At(s.files, path);
  }

  /** An upload that is giving up or has failed. */
  predicate GivesUp(phase: Phase) {
    (phase.CleaningBoth? || phase.CleaningSidecar? || phase.Ended?) && phase.outcome != Succeeded
  }

  lemma OtherStepTouches(s: State, e: Event, sha256: Bytes -> string)
    requires Enabled(s, e) && !e.BeginUpload? && !e.BeginDeletion? && !e.Sweep? && !Rename(e) && Underway(s, e.c, sha256)
    ensures var t := Apply(s, e, sha256);
            && Only(s.files, t.files, s.calls[e.c].paths.Temps()) && t.window == s.window
            && e.c in t.calls && t.calls == s.calls[e.c := s.calls[e.c].Goes(t.calls[e.c].phase)] && GivesUp(t.calls[e.c].phase)
  {
  }

  lemma StepTracked(s: State, e: Event, c: nat, d: nat, data: Option<nat>, sidecar: Option<nat>, sha256: Bytes -> string)
    requires Tracked(s, c, d, data, sidecar, sha256) && Enabled(s, e) && Ours(e, c, d)
    ensures Tracked(Apply(s, e, sha256), c, d, DataHolder(e, data), SidecarHolder(e, sidecar), sha256)
  {
    if e.c == c {
      OwnStepTracked(s, e, c, d, data, sidecar, sha256);
    } else {
      TrackedSwaps(s, c, d, data, sidecar, sha256);
      OwnStepTracked(s, e, d, c, data, sidecar, sha256);
      TrackedSwaps(Apply(s, e, sha256), d, c, DataHolder(e, data), SidecarHolder(e, sidecar), sha256);
    }
  }

  lemma OwnStepTracked(s: State, e: Event, c: nat, d: nat, data: Option<nat>, sidecar: Option<nat>, sha256: Bytes -> string)
    requires Tracked(s, c, d, data, sidecar, sha256) && Enabled(s, e) && Ours(e, c, d) && e.c == c
    ensures Tracked(Apply(s, e, sha256), c, d, DataHolder(e, data), SidecarHolder(e, sidecar), sha256)
  {
    if !Rename(e) {
      OtherStep(s, e, c, d, data, sidecar, sha256);
    } else if e.PlaceData? {
      DataRename(s, c, d, data, sidecar, sha256);
    } else {
      SidecarRename(s, c, d, data, sidecar, sha256);
    }
  }

  lemma {:induction false} RunTracked(s: State, events: seq<Event>, t: State, c: nat, d: nat, data: Option<nat>, sidecar: Option<nat>,
                                      sha256: Bytes -> string)
    requires Tracked(s, c, d, data, sidecar, sha256) && Run(s, events, t, sha256)
    requires AllOurs(events, c, d)
    ensures Tracked(t, c, d, LastData(events, data), LastSidecar(events, sidecar), sha256)
    decreases |events|
  {
    if events != [] {
      var e := events[0];
      OursFirst(events, c, d);
      StepTracked(s, e, c, d, data, sidecar, sha256);
      RunTracked(Apply(s, e, sha256), events[1..], t, c, d, DataHolder(e, data), SidecarHolder(e, sidecar), sha256);
    }
  }

  /** What two uploads were given does not change any more. */
  lemma {:induction false} RunKeepsHashed(s: State, events: seq<Event>, t: State, c: nat, d: nat, data: Option<nat>, sidecar: Option<nat>,
                                          x: nat, sha256: Bytes -> string)
    requires Tracked(s, c, d, data, sidecar, sha256) && Run(s, events, t, sha256) && x in {c, d}
    requires AllOurs(events, c, d)
    ensures x in t.calls && t.calls[x].Upload? && t.calls[x].hashed == s.calls[x].hashed && t.calls[x].paths == s.calls[x].paths
    decreases |events|
  {
    if events != [] {
      var e := events[0];
      OursFirst(events, c, d);
      StepTracked(s, e, c, d, data, sidecar, sha256);
      StepKeepsHashed(s, e, x, sha256);
      RunKeepsHashed(Apply(s, e, sha256), events[1..], t, c, d, DataHolder(e, data), SidecarHolder(e, sidecar), x, sha256);
    }
  }

  lemma StepKeepsHashed(s: State, e: Event, x: nat, sha256: Bytes -> string)
    requires Enabled(s, e) && x in s.calls && s.calls[x].Upload? && !s.calls[x].phase.Open?
    ensures var t := Apply(s, e, sha256);
            x in t.calls && t.calls[x].Upload? && t.calls[x].hashed == s.calls[x].hashed && t.calls[x].paths == s.calls[x].paths
  {
  }

  /**
    Two uploads of one object, both described, whose remaining steps run in any order and both end in success: the
    object is then shown and outside the window, and it agrees if and only if one upload made both the last data rename
    and the last sidecar rename, or both bodies have one size and hash.
   */
  lemma OverlapAgreesIff(s: State, events: seq<Event>, t: State, c: nat, d: nat, sha256: Bytes -> string)
    requires Pair(s, c, d, sha256) && s.calls[c].phase.Described? && s.calls[d].phase.Described? && Run(s, events, t, sha256)
    requires s.calls[c].paths.Valid() && !IsUploading(s.calls[c].paths.data) && AllOurs(events, c, d)
    requires c in t.calls && d in t.calls && Finished(t.calls[c]) && Finished(t.calls[d])
    ensures var p := s.calls[c].paths;
            && Shown(t.files, p.bucket, p.key) && (p.bucket, p.key) !in t.window
            && (Agrees(t.files, p.bucket, p.key, sha256) <==>
                  LastData(events, None) == LastSidecar(events, None) || SameRecord(s.calls[c].hashed, s.calls[d].hashed, sha256))
  {
    RunTracked(s, events, t, c, d, None, None, sha256);
    RunKeepsHashed(s, events, t, c, d, None, None, c, sha256);
    RunKeepsHashed(s, events, t, c, d, None, None, d, sha256);
    FinishedAgreesIff(t, c, d, LastData(events, None), LastSidecar(events, None), sha256);
  }

  lemma FinishedAgreesIff(t: State, c: nat, d: nat, data: Option<nat>, sidecar: Option<nat>, sha256: Bytes -> string)
    requires Tracked(t, c, d, data, sidecar, sha256) && Finished(t.calls[c]) && Finished(t.calls[d])
    requires t.calls[c].paths.Valid() && !IsUploading(t.calls[c].paths.data)
    ensures var p := t.calls[c].paths;
            && Shown(t.files, p.bucket, p.key) && (p.bucket, p.key) !in t.window
            && (Agrees(t.files, p.bucket, p.key, sha256) <==>
                  data == sidecar || SameRecord(t.calls[c].hashed, t.calls[d].hashed, sha256))
  {
    var p := t.calls[c].paths;
    var stored, described := t.calls[data.value].hashed, t.calls[sidecar.value].hashed;
    ShownAgreesIff(t.files, p, stored, t.calls[sidecar.value].Info(sha256), described, sha256);
  }

  // ---- The order that crosses them ----

  /** A second upload of an object that may be in use already: what `BeginUpload` does, whoever works on the object. */
  function Joined(s: State, d: nat, q: Paths): State {
    s.(files := s.files[q.temp := Data([])], calls := s.calls[d := Upload(q, None, map[], [], false, false, Open)])
  }

  /** Where the machine lets the upload in, this is its step. */
  lemma JoiningIsBeginning(s: State, d: nat, q: Paths, sha256: Bytes -> string)
    requires Enabled(s, BeginUpload(d, q, None, map[], true))
    ensures Joined(s, d, q) == Apply(s, BeginUpload(d, q, None, map[], true), sha256)
  {
  }

  /** An upload under q that has been given these bytes, all stored. */
  ghost predicate Fed(s: State, d: nat, q: Paths, bytes: Bytes) {
    && d in s.calls && s.calls[d].Upload? && s.calls[d].paths == q && s.calls[d].phase.Open? && s.calls[d].hashed == bytes
    && !s.calls[d].failed && At(s.files, q.temp) == Some(Data(bytes))
  }

  lemma FeedAll(s: State, d: nat, q: Paths, bytes: Bytes, sha256: Bytes -> string) returns (t: State)
    requires Fed(s, d, q, [])
    ensures Leads(s, t, sha256) && Fed(t, d, q, bytes) && Only(s.files, t.files, {q.temp}) && t.calls == s.calls[d := t.calls[d]]
  {
    var e := Chunk(d, bytes, |bytes|, true);
    OneStep(s, e, sha256);
    t := ApplyChunk(s, d, bytes, |bytes|, true);
    var none: Bytes := [];
    assert none + bytes == bytes;
  }

  lemma DescribeFed(s: State, d: nat, q: Paths, bytes: Bytes, sha256: Bytes -> string) returns (t: State)
    requires Fed(s, d, q, bytes) && q.temp != q.sidecarTemp
    ensures Leads(s, t, sha256) && Underway(t, d, sha256) && Only(s.files, t.files, {q.sidecarTemp}) && t.calls == s.calls[d := t.calls[d]]
    ensures t.calls[d].phase.Described? && t.calls[d].paths == q && t.calls[d].hashed == bytes
  {
    OneStep(s, Describe(d), sha256);
    t := Move(s, d, s.files[q.sidecarTemp := Sidecar(s.calls[d].Info(sha256))], Described);
  }

  /** An upload is not disturbed by work on files that are not its temporary ones. */
  lemma StaysUnderway(s: State, t: State, c: nat, touched: set<string>, sha256: Bytes -> string)
    requires Underway(s, c, sha256) && Only(s.files, t.files, touched) && s.calls[c].paths.Temps() !! touched
    requires c in t.calls && t.calls[c] == s.calls[c]
    ensures Underway(t, c, sha256)
  {
    var p := s.calls[c].paths;
    assert p.temp in p.Temps() && p.sidecarTemp in p.Temps();
    assert At(t.files, p.temp) == At(s.files, p.temp) && At(t.files, p.sidecarTemp) == At(s.files, p.sidecarTemp);
  }

  lemma OnlyTogether(a: Files, b: Files, c: Files, x: set<string>, y: set<string>)
    requires Only(a, b, x) && Only(b, c, y)
    ensures Only(a, c, x + y)
  {
    forall path | path !in x + y
      ensures At(a, path) == At(c, path)
    {
      assert At(a, path) == At(b, path) && At(b, path) == At(c, path);
    }
  }

  /** A second upload that joins, and is described while the first waits for its renames. */
  lemma JoinedUpload(s: State, c: nat, d: nat, q: Paths, bytes: Bytes, sha256: Bytes -> string) returns (t: State)
    requires Underway(s, c, sha256) && s.calls[c].phase.Described? && d !in s.calls && Shared(s.calls[c].paths, q)
    ensures Leads(Joined(s, d, q), t, sha256) && Pair(t, c, d, sha256) && t.calls[c] == s.calls[c]
    ensures t.calls[d].phase.Described? && t.calls[d].hashed == bytes && t.calls[d].paths == q
    ensures forall x | x in t.calls :: x in s.calls || x == d
    ensures forall x | x in s.calls :: x in t.calls && t.calls[x] == s.calls[x]
  {
    var s1 := Joined(s, d, q);
    var s2 := FeedAll(s1, d, q, bytes, sha256);
    t := DescribeFed(s2, d, q, bytes, sha256);
    LeadsOn(s1, s2, t, sha256);
    OnlyTogether(s.files, s1.files, s2.files, {q.temp}, {q.temp});
    OnlyTogether(s.files, s2.files, t.files, {q.temp} + {q.temp}, {q.sidecarTemp});
    StaysUnderway(s, t, c, {q.temp} + {q.temp} + {q.sidecarTemp}, sha256);
  }

  /** First c's data, then d's; first d's sidecar, then c's. */
  function Crossed(c: nat, d: nat): seq<Event> {
    [PlaceData(c, true), PlaceData(d, true), PlaceSidecar(d, true), PlaceSidecar(c, true)]
  }

  lemma HoldersOfTwo(x: Event, y: Event, data: Option<nat>, sidecar: Option<nat>)
    ensures LastData([x, y], data) == DataHolder(y, DataHolder(x, data))
    ensures LastSidecar([x, y], sidecar) == SidecarHolder(y, SidecarHolder(x, sidecar))
  {
    assert [x, y][1..] == [y] && [y][1..] == [];
    assert LastData([y], DataHolder(x, data)) == DataHolder(y, DataHolder(x, data));
    assert LastSidecar([y], SidecarHolder(x, sidecar)) == SidecarHolder(y, SidecarHolder(x, sidecar));
  }

  lemma HoldersOfFour(a: Event, b: Event, x: Event, y: Event)
    ensures LastData([a, b, x, y], None) == DataHolder(y, DataHolder(x, DataHolder(b, DataHolder(a, None))))
    ensures LastSidecar([a, b, x, y], None) == SidecarHolder(y, SidecarHolder(x, SidecarHolder(b, SidecarHolder(a, None))))
  {
    var events := [a, b, x, y];
    assert events[1..] == [b, x, y] && [b, x, y][1..] == [x, y] && [x, y][1..] == [y] && [y][1..] == [];
    HoldersOfTwo(x, y, DataHolder(b, DataHolder(a, None)), SidecarHolder(b, SidecarHolder(a, None)));
  }

  lemma CrossedHolders(c: nat, d: nat)
    ensures LastData(Crossed(c, d), None) == Some(d) && LastSidecar(Crossed(c, d), None) == Some(c)
    ensures AllOurs(Crossed(c, d), c, d)
  {
    HoldersOfFour(PlaceData(c, true), PlaceData(d, true), PlaceSidecar(d, true), PlaceSidecar(c, true));
  }

  /** The four renames in an order in which each upload's data comes first, and c's data before d's. */
  predicate InOrder(events: seq<Event>, c: nat, d: nat) {
    var (a, b, x, y) := (PlaceData(c, true), PlaceSidecar(c, true), PlaceData(d, true), PlaceSidecar(d, true));
    events in {[a, b, x, y], [a, x, b, y], [a, x, y, b]}
  }

  /** Of these orders only the one in which c's renames enclose d's leaves data and sidecar of different uploads. */
  lemma OnlyEnclosingCrosses(events: seq<Event>, c: nat, d: nat)
    requires c != d && InOrder(events, c, d)
    ensures LastData(events, None) != LastSidecar(events, None) <==> events == Crossed(c, d)
  {
    var a, b, x, y := PlaceData(c, true), PlaceSidecar(c, true), PlaceData(d, true), PlaceSidecar(d, true);
    HoldersOfFour(a, b, x, y);
    HoldersOfFour(a, x, b, y);
    HoldersOfFour(a, x, y, b);
    assert [a, b, x, y][1] != [a, x, y, b][1] && [a, x, b, y][2] != [a, x, y, b][2];
  }

  lemma RunMore(s: State, events: seq<Event>, t: State, e: Event, sha256: Bytes -> string)
    requires Run(s, events, t, sha256) && Enabled(t, e)
    ensures Run(s, events + [e], Apply(t, e, sha256), sha256)
  {
    var u := Apply(t, e, sha256);
    assert [e][1..] == [];
    assert Run(t, [e], u, sha256);
    RunConcat(s, events, t, [e], u, sha256);
  }

  lemma BothPlaced(s: State, c: nat, d: nat, sha256: Bytes -> string) returns (t: State)
    requires Pair(s, c, d, sha256) && s.calls[c].phase.Described? && s.calls[d].phase.Described?
    ensures Run(s, [PlaceData(c, true), PlaceData(d, true)], t, sha256) && Pair(t, c, d, sha256)
    ensures t.calls[c].phase.Placed? && t.calls[d].phase.Placed?
    ensures t.calls == s.calls[c := t.calls[c]][d := t.calls[d]]
  {
    DataRenamePair(s, c, d, sha256);
    var u := ApplyPlaceData(s, c);
    PairSwaps(u, c, d, sha256);
    DataRenamePair(u, d, c, sha256);
    t := ApplyPlaceData(u, d);
    PairSwaps(t, d, c, sha256);
    assert Run(s, [], s, sha256);
    RunMore(s, [], s, PlaceData(c, true), sha256);
    assert [] + [PlaceData(c, true)] == [PlaceData(c, true)];
    RunMore(s, [PlaceData(c, true)], u, PlaceData(d, true), sha256);
    assert [PlaceData(c, true)] + [PlaceData(d, true)] == [PlaceData(c, true), PlaceData(d, true)];
  }

  lemma CrossedRun(s: State, c: nat, d: nat, sha256: Bytes -> string) returns (t: State)
    requires Pair(s, c, d, sha256) && s.calls[c].phase.Described? && s.calls[d].phase.Described?
    ensures Run(s, Crossed(c, d), t, sha256) && c in t.calls && d in t.calls && Finished(t.calls[c]) && Finished(t.calls[d])
    ensures t.calls == s.calls[c := t.calls[c]][d := t.calls[d]]
  {
    var u := BothPlaced(s, c, d, sha256);
    PairSwaps(u, c, d, sha256);
    SidecarRenamePair(u, d, c, sha256);
    var v := ApplyPlaceSidecar(u, d);
    PairSwaps(v, d, c, sha256);
    SidecarRenamePair(v, c, d, sha256);
    t := ApplyPlaceSidecar(v, c);
    var two := [PlaceData(c, true), PlaceData(d, true)];
    RunMore(s, two, u, PlaceSidecar(d, true), sha256);
    RunMore(s, two + [PlaceSidecar(d, true)], v, PlaceSidecar(c, true), sha256);
    assert two + [PlaceSidecar(d, true)] + [PlaceSidecar(c, true)] == Crossed(c, d);
  }

  lemma PairSwaps(s: State, c: nat, d: nat, sha256: Bytes -> string)
    requires Pair(s, c, d, sha256)
    ensures Pair(s, d, c, sha256)
  {
  }

  /** A store in which one upload is described, and nothing else has been done. */
  lemma FirstDescribed(p: Paths, bytes: Bytes, sha256: Bytes -> string) returns (s: State)
    requires p.Valid() && p.bucket != INTERNAL_STORAGE_DIR
    ensures Reachable(s, sha256) && (forall x :: x in s.calls <==> x == 0) && Underway(s, 0, sha256)
    ensures s.calls[0].phase.Described? && s.calls[0].paths == p && s.calls[0].hashed == bytes
  {
    var s0 := EmptyStore(sha256);
    assert bytes[..|bytes|] == bytes;
    s := UploadOne(s0, 0, p, bytes, |bytes|, sha256);
  }

  lemma JoinAndCross(s: State, q: Paths, bytes: Bytes, sha256: Bytes -> string) returns (u: State, t: State)
    requires (forall x :: x in s.calls <==> x == 0) && Underway(s, 0, sha256) && s.calls[0].phase.Described? && Shared(s.calls[0].paths, q)
    ensures Leads(Joined(s, 1, q), u, sha256) && Run(u, Crossed(0, 1), t, sha256) && Pair(u, 0, 1, sha256)
    ensures u.calls[0] == s.calls[0] && u.calls[1].phase.Described? && u.calls[1].hashed == bytes
    ensures Idle(t) && 0 in t.calls && 1 in t.calls && Finished(t.calls[0]) && Finished(t.calls[1])
  {
    u := JoinedUpload(s, 0, 1, q, bytes, sha256);
    t := CrossedRun(u, 0, 1, sha256);
  }

  /**
    For any object and any two bodies: a second upload joins a first that is described, and the four renames cross.
    Both calls return success, nothing is in progress, the object is shown and outside the window, and it agrees
    if and only if both bodies have one size and hash.
   */
  lemma CrossedUploads(p: Paths, q: Paths, one: Bytes, other: Bytes, sha256: Bytes -> string) returns (s: State, u: State, t: State)
    requires Rivals(p, q)
    ensures Reachable(s, sha256) && 0 in s.calls && s.calls[0].phase.Described? && s.calls[0].Id() == (p.bucket, p.key) && 1 !in s.calls
    ensures Leads(Joined(s, 1, q), u, sha256) && Run(u, Crossed(0, 1), t, sha256)
    ensures Idle(t) && 0 in t.calls && 1 in t.calls && Finished(t.calls[0]) && Finished(t.calls[1])
    ensures Shown(t.files, p.bucket, p.key) && (p.bucket, p.key) !in t.window
    ensures Agrees(t.files, p.bucket, p.key, sha256) <==> SameRecord(one, other, sha256)
  {
    s := FirstDescribed(p, one, sha256);
    RivalsShare(p, q);
    u, t := JoinAndCross(s, q, other, sha256);
    CrossedHolders(0, 1);
    OverlapAgreesIff(u, Crossed(0, 1), t, 0, 1, sha256);
  }

  /** Key `k` of bucket `b`, uploaded twice at once with a byte and with none, ends like that, whatever the hash. */
  lemma AnObjectCrosses(sha256: Bytes -> string) returns (t: State)
    ensures Idle(t) && Shown(t.files, "b", "k") && ("b", "k") !in t.window && !Agrees(t.files, "b", "k", sha256)
    ensures 0 in t.calls && 1 in t.calls && Finished(t.calls[0]) && Finished(t.calls[1])
  {
    var p, q := TwoWriters();
    var s, u;
    s, u, t := CrossedUploads(p, q, [1], [], sha256);
  }
}
