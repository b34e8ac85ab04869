/**
  The local object store as a machine: any number of uploads and deletions take atomic file system steps
  in any order, and may fail or stop between any two. Calls for one object do not overlap; calls for
  different objects do.
 */
module ObjectStore {
  import opened Wrappers
  import opened ByteStrings
  import opened Keys
  import opened TempNames
  import opened ObjectAgreement

  datatype Outcome = Succeeded | Failed | Aborted | Stopped

  datatype Phase =
    | Open                               // accepting chunks
    | Described                          // `complete` has written the sidecar's temporary file
    | Placed                             // the data file is renamed, the sidecar is not
    | CleaningBoth(outcome: Outcome)
    | CleaningSidecar(outcome: Outcome)
    | DeletingData
    | DeletingSidecar
    | Ended(outcome: Outcome)

  /**
    One call. `hashed` is what the hasher has been fed, `failed` says that a chunk's write returned an
    error, and `placed` that the call has renamed its data file into place.
   */
  datatype Call =
    | Upload(paths: Paths, contentType: Option<string>, metadata: map<string, string>,
             hashed: Bytes, failed: bool, placed: bool, phase: Phase)
    | Deletion(bucket: string, key: string, data: string, sidecar: string, phase: Phase)
  {
    function Id(): (string, string) {
      if Upload? then (paths.bucket, paths.key) else (bucket, key)
    }

    function DataPath(): string { if Upload? then paths.data else data }

    function SidecarPath(): string { if Upload? then paths.sidecar else sidecar }

    function Temps(): set<string> { if Upload? then paths.Temps() else {} }

    /** The paths only this call may touch while it lasts. */
    function Own(): set<string> { {DataPath(), SidecarPath()} + Temps() }

    predicate Live() { !phase.Ended? }

    function Goes(next: Phase): Call { this.(phase := next) }

    function Info(sha256: Bytes -> string): ObjectInfo
      requires Upload?
    {
      InfoFor(paths, contentType, metadata, hashed, sha256)
    }
  }

  /** `window` is history: the objects that an unfinished or mishandled upload may have put out of agreement. */
  datatype State = State(files: Files, calls: map<nat, Call>, window: set<(string, string)>)

  datatype Event =
    | BeginUpload(c: nat, paths: Paths, contentType: Option<string>, metadata: map<string, string>, ok: bool)
    | Chunk(c: nat, bytes: Bytes, taken: nat, ok: bool)
    | Describe(c: nat)
    | DescribeFails(c: nat, begun: bool)
    | PlaceData(c: nat, ok: bool)
    | PlaceSidecar(c: nat, ok: bool)
    | Abort(c: nat)
    | RemoveTemp(c: nat, ok: bool)
    | RemoveSidecarTemp(c: nat, ok: bool)
    | BeginDeletion(c: nat, bucket: string, key: string)
    | RemoveData(c: nat, ok: bool)
    | RemoveSidecar(c: nat, ok: bool)
    | Stop(c: nat)
    | Sweep(path: string)

  ghost predicate Init(s: State, sha256: Bytes -> string) {
    s.calls == map[] && s.window == {} && Consistent(Snapshot(s.files, {}), sha256)
  }

  /** No call in progress works on the object. */
  predicate Unclaimed(s: State, id: (string, string)) {
    forall q | q in s.calls && s.calls[q].Live() :: s.calls[q].Id() != id
  }

  /**
    UUIDs are taken to be fresh: the new temporary paths name no file and no path of a call in progress,
    and no call in progress has one of the new call's paths for its own temporary file.
   */
  predicate Fresh(s: State, temps: set<string>, all: set<string>) {
    && temps !! s.files.Keys
    && forall q | q in s.calls && s.calls[q].Live() :: s.calls[q].Own() !! temps && s.calls[q].Temps() !! all
  }

  predicate InPhase(s: State, c: nat, e: Event) {
    c in s.calls
    && var call := s.calls[c];
       match e
       case Chunk(_, bytes, taken, _) => call.Upload? && call.phase.Open? && taken <= |bytes|
       case Describe(_) => call.Upload? && call.phase.Open?
       case DescribeFails(_, _) => call.Upload? && call.phase.Open?
       case PlaceData(_, ok) => call.Upload? && call.phase.Described? && (ok ==> call.paths.temp in s.files)
       case PlaceSidecar(_, ok) => call.Upload? && call.phase.Placed? && (ok ==> call.paths.sidecarTemp in s.files)
       case Abort(_) => call.Upload? && call.phase.Open?
       case RemoveTemp(_, _) => call.Upload? && call.phase.CleaningBoth?
       case RemoveSidecarTemp(_, _) => call.Upload? && call.phase.CleaningSidecar?
       case RemoveData(_, _) => call.Deletion? && call.phase.DeletingData?
       case RemoveSidecar(_, _) => call.Deletion? && call.phase.DeletingSidecar?
       case Stop(_) => call.Live()
       case _ => false
  }

  ghost predicate Enabled(s: State, e: Event) {
    if e.BeginUpload? then
      && e.c !in s.calls && e.paths.Valid() && e.paths.bucket != INTERNAL_STORAGE_DIR
      && Unclaimed(s, (e.paths.bucket, e.paths.key)) && Fresh(s, e.paths.Temps(), e.paths.All())
    else if e.BeginDeletion? then
      && e.c !in s.calls && ObjectPath(e.bucket, e.key).Ok? && e.bucket != INTERNAL_STORAGE_DIR && Unclaimed(s, (e.bucket, e.key))
      && Fresh(s, {}, {ObjectPath(e.bucket, e.key).value, ObjectMetadataPath(e.bucket, e.key).value})
    else if e.Sweep? then IsUploading(e.path)
    else InPhase(s, e.c, e)
  }

  /** The call goes on to a phase over these files. */
  function Move(s: State, c: nat, files: Files, phase: Phase): State
    requires c in s.calls
  {
    s.(files := files, calls := s.calls[c := s.calls[c].Goes(phase)])
  }

  /** Appending what the write took, through the open handle; of a file that has lost its name nothing is seen. */
  function Appended(files: Files, path: string, bytes: Bytes): Files {
    if path in files && files[path].Data? then files[path := Data(files[path].bytes + bytes)] else files
  }

  /** The window once new data is in place: the object is in it if it has a sidecar to disagree with. */
  function Widened(files: Files, window: set<(string, string)>, call: Call): set<(string, string)> {
    if call.SidecarPath() in files then window + {call.Id()} else window
  }

  /** The window after the sidecar is in place: an upload that passed over a failed chunk leaves the object in it. */
  function Closed(window: set<(string, string)>, call: Call): set<(string, string)> {
    if call.Upload? && call.failed then window + {call.Id()} else window - {call.Id()}
  }

  function ApplyChunk(s: State, c: nat, bytes: Bytes, taken: nat, ok: bool): State
    requires InPhase(s, c, Chunk(c, bytes, taken, ok))
  {
    var call := s.calls[c];
    s.(files := Appended(s.files, call.paths.temp, if ok then bytes else bytes[..taken]),
       calls := s.calls[c := call.(hashed := call.hashed + bytes, failed := call.failed || !ok)])
  }

  function ApplyPlaceData(s: State, c: nat): State
    requires InPhase(s, c, PlaceData(c, true))
  {
    var call := s.calls[c];
    State(Moved(s.files, call.paths.temp, call.paths.data), s.calls[c := call.(phase := Placed, placed := true)],
          Widened(s.files, s.window, call))
  }

  function ApplyPlaceSidecar(s: State, c: nat): State
    requires InPhase(s, c, PlaceSidecar(c, true))
  {
    var call := s.calls[c];
    State(Moved(s.files, call.paths.sidecarTemp, call.paths.sidecar), s.calls[c := call.Goes(Ended(Succeeded))],
          Closed(s.window, call))
  }

  function ApplyRemove(s: State, c: nat, path: string, phase: Phase): State
    requires c in s.calls
  {
    Move(s, c, s.files - {path}, phase).(window := s.window - {s.calls[c].Id()})
  }

  function Apply(s: State, e: Event, sha256: Bytes -> string): State
    requires Enabled(s, e)
  {
    match e
    case BeginUpload(c, paths, contentType, metadata, ok) =>
      s.(files := s.files[paths.temp := Data([])],
         calls := s.calls[c := Upload(paths, contentType, metadata, [], false, false, if ok then Open else Ended(Failed))])
    case Chunk(c, bytes, taken, ok) => ApplyChunk(s, c, bytes, taken, ok)
    case Describe(c) => Move(s, c, s.files[s.calls[c].paths.sidecarTemp := Sidecar(s.calls[c].Info(sha256))], Described)
    case DescribeFails(c, begun) =>
      // the flush fails, or the write of the sidecar; either way both temporary files stay behind
      Move(s, c, if begun then s.files[s.calls[c].paths.sidecarTemp := Partial] else s.files, Ended(Failed))
    case PlaceData(c, ok) => if ok then ApplyPlaceData(s, c) else Move(s, c, s.files, CleaningBoth(Failed))
    case PlaceSidecar(c, ok) => if ok then ApplyPlaceSidecar(s, c) else Move(s, c, s.files, CleaningSidecar(Failed))
    case Abort(c) => Move(s, c, s.files, CleaningBoth(Aborted))
    case RemoveTemp(c, ok) =>
      Move(s, c, if ok then s.files - {s.calls[c].paths.temp} else s.files, CleaningSidecar(s.calls[c].phase.outcome))
    case RemoveSidecarTemp(c, ok) =>
      Move(s, c, if ok then s.files - {s.calls[c].paths.sidecarTemp} else s.files, Ended(s.calls[c].phase.outcome))
    case BeginDeletion(c, bucket, key) =>
      s.(calls := s.calls[c := Deletion(bucket, key, ObjectPath(bucket, key).value, ObjectMetadataPath(bucket, key).value, DeletingData)])
    case RemoveData(c, ok) =>
      if ok then ApplyRemove(s, c, s.calls[c].data, DeletingSidecar) else Move(s, c, s.files, Ended(Failed))
    case RemoveSidecar(c, ok) =>
      if ok then ApplyRemove(s, c, s.calls[c].sidecar, Ended(Succeeded)) else Move(s, c, s.files, Ended(Failed))
    case Stop(c) => Move(s, c, s.files, Ended(Stopped))
    case Sweep(path) => s.(files := s.files - {path})
  }

  ghost predicate Run(s: State, events: seq<Event>, t: State, sha256: Bytes -> string)
    decreases |events|
  {
    if events == [] then s == t
    else Enabled(s, events[0]) && Run(Apply(s, events[0], sha256), events[1..], t, sha256)
  }

  ghost predicate Reachable(t: State, sha256: Bytes -> string) {
    exists s, events :: Init(s, sha256) && Run(s, events, t, sha256)
  }
}
