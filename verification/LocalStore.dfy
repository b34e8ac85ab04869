/**
  The local blob store as a machine: any number of writers, copies, deletes, sweeps and readers take
  atomic file system steps in any order, and may fail or stop between any two of them.

  Names lead to inodes and inodes hold bytes, so an open handle keeps its inode whatever happens to
  the name.
 */
module LocalStore {
  import opened ByteStrings
  import opened TempNames

  /** A directory entry the store makes: a blob's own path, or the temporary path of one call. */
  datatype Name = Blob(key: string) | Temp(key: string, id: Uuid)

  function PathOf(n: Name): string {
    match n
    case Blob(key) => key
    case Temp(key, id) => LocalTempPath(key, id)
  }

  /** Names stand for different files as long as no blob key has the temporary suffix. */
  lemma PathsDistinct(a: Name, b: Name)
    requires a.Blob? ==> !IsUploading(a.key)
    requires b.Blob? ==> !IsUploading(b.key)
    ensures PathOf(a) == PathOf(b) <==> a == b
    ensures IsUploading(PathOf(a)) <==> a.Temp?
  {
    if a.Temp? {
      LocalTempUploading(a.key, a.id);
    }
    if b.Temp? {
      LocalTempUploading(b.key, b.id);
    }
    if a.Temp? && b.Temp? && PathOf(a) == PathOf(b) {
      LocalTempInjective(a.key, a.id, b.key, b.id);
    }
  }

  /** A blob key with the suffix can be another call's temporary path, so the claims are for keys without it. */
  lemma SuffixedKeyMeetsTemp(key: string, id: Uuid)
    ensures IsUploading(LocalTempPath(key, id)) && PathOf(Blob(LocalTempPath(key, id))) == PathOf(Temp(key, id))
  {
    LocalTempUploading(key, id);
  }

  /** One call. `broken` says that the source stream ends in an error after its chunks. */
  datatype Op =
    | Put(key: string, id: Uuid, chunks: seq<Bytes>, broken: bool)
    | PutIfNotExists(key: string, id: Uuid, chunks: seq<Bytes>, broken: bool)
    | CheckThenPut(key: string, id: Uuid, chunks: seq<Bytes>, broken: bool)
    | Copy(from: string, key: string, id: Uuid)
  {
    function TempName(): Name { Temp(key, id) }
  }

  datatype Outcome = Stored | Refused | Failed

  datatype Phase =
    | Checking
    | Opening
    | SourceOpen(src: nat)
    | Writing(ino: nat, left: seq<Bytes>)
    | Copying(ino: nat, src: nat)
    | Written(ino: nat)
    | Cleaning(outcome: Outcome)
    | Done(outcome: Outcome)

  datatype Proc = Proc(op: Op, phase: Phase)

  /** A stream made by `get_blob`: the open inode, the bytes yielded so far, and whether it has ended. */
  datatype Reader = Reader(ino: nat, out: Bytes, ended: bool)

  /** When a call published: the deletions of its key before then, and the inode it published. */
  datatype Publication = Publication(epoch: nat, ino: nat)

  /**
    The file system (`names`, `data`), the calls and streams in progress, and history: inodes whose
    writer has finished, bodies that count as whole, deletions per key, keys whose entry may come
    from an unconditional write since their last deletion, and the calls that have published.
   */
  datatype State = State(
    names: map<Name, nat>, data: map<nat, Bytes>, procs: map<nat, Proc>, readers: map<nat, Reader>,
    sealed: set<nat>, versions: set<Bytes>, epochs: map<string, nat>, clobbered: set<string>,
    published: map<nat, Publication>)
  {
    function Epoch(key: string): nat { if key in epochs then epochs[key] else 0 }

    predicate Has(key: string) { Blob(key) in names && names[Blob(key)] in data }

    function Contents(key: string): Bytes
      requires Has(key)
    {
      data[names[Blob(key)]]
    }
  }

  datatype Event =
    | Begin(p: nat, op: Op)
    | Check(p: nat)
    | OpenSource(p: nat)
    | CreateTemp(p: nat, ino: nat)
    | WriteChunk(p: nat)
    | FinishWrite(p: nat)
    | CopyChunk(p: nat, n: nat)
    | FinishCopy(p: nat)
    | Fail(p: nat, n: nat)
    | Publish(p: nat)
    | CleanUp(p: nat, removed: bool)
    | Delete(key: string)
    | Sweep(name: Name)
    | OpenReader(r: nat, key: string)
    | ReadChunk(r: nat, n: nat)
    | EndRead(r: nat)

  ghost predicate Init(s: State) {
    && s.procs == map[] && s.readers == map[] && s.published == map[] && s.epochs == map[]
    && s.names.Values <= s.data.Keys
    && s.sealed == s.data.Keys
    && s.versions == s.data.Values
    && forall key :: key in s.clobbered <==> Blob(key) in s.names
  }

  predicate InPhase(s: State, p: nat, e: Event) {
    p in s.procs
    && var ph := s.procs[p].phase;
       match e
       case Check(_) => ph.Checking?
       case OpenSource(_) => ph.Opening? && s.procs[p].op.Copy?
       case CreateTemp(_, _) => ph.SourceOpen? || (ph.Opening? && !s.procs[p].op.Copy?)
       case WriteChunk(_) => ph.Writing? && ph.left != []
       case FinishWrite(_) => ph.Writing? && ph.left == []
       case CopyChunk(_, n) => ph.Copying? && ph.ino in s.data && ph.src in s.data && |s.data[ph.ino]| + n <= |s.data[ph.src]| && n > 0
       case FinishCopy(_) => ph.Copying? && ph.ino in s.data && ph.src in s.data && |s.data[ph.ino]| >= |s.data[ph.src]|
       case Fail(_, n) => ph.Checking? || ph.Opening? || ph.SourceOpen? || ph.Copying? || ph.Written? || (ph.Writing? && (n == 0 || (ph.left != [] && n <= |ph.left[0]|)))
       case Publish(_) => ph.Written?
       case CleanUp(_, _) => ph.Cleaning?
       case _ => false
  }

  /**
    UUIDs are taken to be fresh: a new call's UUID differs from every earlier one, and its temporary
    name is not in use.
   */
  predicate Fresh(s: State, p: nat, op: Op) {
    && p !in s.procs
    && op.TempName() !in s.names && forall q | q in s.procs :: s.procs[q].op.id != op.id
  }

  predicate Enabled(s: State, e: Event) {
    if e.Begin? then Fresh(s, e.p, e.op)
    else if e.CreateTemp? then InPhase(s, e.p, e) && e.ino !in s.data
    else if e.Delete? then true
    else if e.Sweep? then e.name.Temp?
    else if e.OpenReader? then e.r !in s.readers && Blob(e.key) in s.names
    else if e.ReadChunk? || e.EndRead? then CanRead(s, e)
    else InPhase(s, e.p, e)
  }

  /** A stream goes on to bytes that are there, and ends where there are none. */
  predicate CanRead(s: State, e: Event)
    requires e.ReadChunk? || e.EndRead?
  {
    && e.r in s.readers && !s.readers[e.r].ended && s.readers[e.r].ino in s.data
    && if e.ReadChunk? then e.n > 0 && |s.readers[e.r].out| + e.n <= |s.data[s.readers[e.r].ino]|
       else |s.readers[e.r].out| >= |s.data[s.readers[e.r].ino]|
  }

  function Move(s: State, p: nat, phase: Phase): State
    requires p in s.procs
  {
    s.(procs := s.procs[p := s.procs[p].(phase := phase)])
  }

  function Append(s: State, ino: nat, bytes: Bytes): State {
    s.(data := s.data[ino := (if ino in s.data then s.data[ino] else []) + bytes])
  }

  /** The call enters; a body whose stream does not fail counts as a whole version from here on. */
  function ApplyBegin(s: State, p: nat, op: Op): State {
    s.(procs := s.procs[p := Proc(op, if op.CheckThenPut? then Checking else Opening)],
       versions := s.versions + if op.Copy? || op.broken then {} else {Flatten(op.chunks)})
  }

  /** Creating a file that exists opens its inode and truncates it. */
  function ApplyCreateTemp(s: State, p: nat, ino: nat): State
    requires p in s.procs && (s.procs[p].phase.SourceOpen? || (s.procs[p].phase.Opening? && !s.procs[p].op.Copy?))
  {
    var proc := s.procs[p];
    var temp := proc.op.TempName();
    var i := if temp in s.names then s.names[temp] else ino;
    var made := s.(names := s.names[temp := i], data := s.data[i := []]);
    Move(made, p, if proc.phase.SourceOpen? then Copying(i, proc.phase.src) else Writing(i, proc.op.chunks))
  }

  /** Rename for unconditional writes, hard link for conditional ones. */
  function ApplyPublish(s: State, p: nat): State
    requires p in s.procs && s.procs[p].phase.Written?
  {
    var op := s.procs[p].op;
    var temp := op.TempName();
    if temp !in s.names then Move(s, p, Cleaning(Failed))
    else if op.PutIfNotExists? then
      if Blob(op.key) in s.names then Move(s, p, Cleaning(Refused))
      else
        Move(s, p, Cleaning(Stored)).(
          names := s.names[Blob(op.key) := s.names[temp]],
          published := s.published[p := Publication(s.Epoch(op.key), s.names[temp])])
    else
      Move(s, p, Done(Stored)).(
        names := (s.names - {temp})[Blob(op.key) := s.names[temp]],
        clobbered := s.clobbered + {op.key},
        published := s.published[p := Publication(s.Epoch(op.key), s.names[temp])])
  }

  /** A failing write may still have put part of its chunk in the file. */
  function ApplyFail(s: State, p: nat, n: nat): State
    requires InPhase(s, p, Fail(p, n))
  {
    var ph := s.procs[p].phase;
    if ph.Writing? && n > 0 then Move(Append(s, ph.ino, ph.left[0][..n]), p, Cleaning(Failed)) else Move(s, p, Cleaning(Failed))
  }

  /** The n bytes of a file that follow those already taken. */
  function NextBytes(file: Bytes, taken: Bytes, n: nat): Bytes
    requires |taken| + n <= |file|
  {
    file[|taken|..|taken| + n]
  }

  function Apply(s: State, e: Event): State
    requires Enabled(s, e)
  {
    match e
    case Begin(p, op) => ApplyBegin(s, p, op)
    case Check(p) => Move(s, p, if Blob(s.procs[p].op.key) in s.names then Done(Refused) else Opening)
    case OpenSource(p) =>
      var from := Blob(s.procs[p].op.from);
      Move(s, p, if from in s.names then SourceOpen(s.names[from]) else Cleaning(Failed))
    case CreateTemp(p, ino) => ApplyCreateTemp(s, p, ino)
    case WriteChunk(p) =>
      var ph := s.procs[p].phase;
      Move(Append(s, ph.ino, ph.left[0]), p, Writing(ph.ino, ph.left[1..]))
    case FinishWrite(p) =>
      if s.procs[p].op.Copy? || s.procs[p].op.broken then Move(s, p, Cleaning(Failed))
      else Move(s, p, Written(s.procs[p].phase.ino)).(sealed := s.sealed + {s.procs[p].phase.ino})
    case CopyChunk(p, n) =>
      var ph := s.procs[p].phase;
      Move(Append(s, ph.ino, NextBytes(s.data[ph.src], s.data[ph.ino], n)), p, ph)
    case FinishCopy(p) =>
      var ph := s.procs[p].phase;
      Move(s, p, Written(ph.ino)).(sealed := s.sealed + {ph.ino})
    case Fail(p, n) => ApplyFail(s, p, n)
    case Publish(p) => ApplyPublish(s, p)
    case CleanUp(p, removed) =>
      var cleaned := if removed then s.(names := s.names - {s.procs[p].op.TempName()}) else s;
      Move(cleaned, p, Done(s.procs[p].phase.outcome))
    case Delete(key) =>
      s.(names := s.names - {Blob(key)}, epochs := s.epochs[key := s.Epoch(key) + 1], clobbered := s.clobbered - {key})
    case Sweep(name) => s.(names := s.names - {name})
    case OpenReader(r, key) => s.(readers := s.readers[r := Reader(s.names[Blob(key)], [], false)])
    case ReadChunk(r, n) =>
      var rd := s.readers[r];
      s.(readers := s.readers[r := Reader(rd.ino, rd.out + NextBytes(s.data[rd.ino], rd.out, n), false)])
    case EndRead(r) => s.(readers := s.readers[r := s.readers[r].(ended := true)])
  }

  /** The events take the store from s to t. */
  ghost predicate Run(s: State, events: seq<Event>, t: State)
    decreases |events|
  {
    if events == [] then s == t
    else Enabled(s, events[0]) && Run(Apply(s, events[0]), events[1..], t)
  }

  ghost predicate Reachable(t: State) {
    exists s, events :: Init(s) && Run(s, events, t)
  }
}
