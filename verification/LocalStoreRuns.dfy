/** The steps that bring names and calls into the local store, and whole runs of it. */
module LocalStoreRuns {
  import opened ByteStrings
  import opened LocalStore
  import opened LocalStoreInvariant

  lemma BeginOk(s: State, p: nat, op: Op)
    requires Inv(s) && Enabled(s, Begin(p, op))
    ensures Inv(Apply(s, Begin(p, op)))
  {
    var t := ApplyBegin(s, p, op);
    BeginUndisturbed(s, p, op);
    assert ProcOk(t, p);
    OthersOk(s, t, p);
    StreamsOk(s, t, p);
    BeginPairs(s, p, op);
  }

  lemma BeginUndisturbed(s: State, p: nat, op: Op)
    requires Inv(s) && Fresh(s, p, op)
    ensures Undisturbed(s, ApplyBegin(s, p, op), p) && FilesOk(ApplyBegin(s, p, op))
  {
    forall q, i | q in s.procs && WriterOf(s.procs[q].phase, i)
      ensures i !in s.sealed
    {
      WriterHasInode(s, q, i);
    }
  }

  lemma BeginPairs(s: State, p: nat, op: Op)
    requires PairsOk(s) && Fresh(s, p, op)
    ensures PairsOk(ApplyBegin(s, p, op))
  {
  }

  /** A new name among the temporary ones disturbs no other call. */
  lemma CreateTempOk(s: State, p: nat, ino: nat)
    requires Inv(s) && Enabled(s, CreateTemp(p, ino))
    ensures Inv(Apply(s, CreateTemp(p, ino)))
  {
    assert ProcOk(s, p);
    var proc := s.procs[p];
    var t := ApplyCreateTemp(s, p, ino);
    assert Undisturbed(s, t, p) by {
      CreateUndisturbed(s, p, ino);
    }
    CreatedPhase(s, p, ino);
    MovedOk(s, t, p, t.procs[p].phase);
  }

  lemma CreatedPhase(s: State, p: nat, ino: nat)
    requires Inv(s) && Enabled(s, CreateTemp(p, ino)) && ProcOk(s, p)
    ensures var t := ApplyCreateTemp(s, p, ino);
            Moved(s, t, p, t.procs[p].phase) && PhaseOk(t, s.procs[p].op, t.procs[p].phase) && FilesOk(t)
            && t.procs[p].phase.ino == ino
  {
    assert [] + Flatten(if s.procs[p].op.Copy? then [] else s.procs[p].op.chunks) == Flatten(if s.procs[p].op.Copy? then [] else s.procs[p].op.chunks);
  }

  lemma CreateUndisturbed(s: State, p: nat, ino: nat)
    requires Inv(s) && Enabled(s, CreateTemp(p, ino)) && s.procs[p].op.TempName() !in s.names
    ensures Undisturbed(s, ApplyCreateTemp(s, p, ino), p)
  {
    forall q, i | q in s.procs && WriterOf(s.procs[q].phase, i)
      ensures i in s.data && i !in s.sealed
    {
      WriterHasInode(s, q, i);
    }
  }

  /** Giving a blob name a finished inode, and perhaps dropping p's temporary name. */
  ghost predicate Installed(s: State, t: State, p: nat, phase: Phase) {
    && p in s.procs && s.procs[p].phase.Written? && (phase.Cleaning? || phase.Done?)
    && t.data == s.data && t.sealed == s.sealed && t.versions == s.versions && Moved(s, t, p, phase)
    && forall n | n in t.names ::
         (n == Blob(s.procs[p].op.key) && t.names[n] == s.procs[p].phase.ino) || (n in s.names && t.names[n] == s.names[n])
  }

  lemma InstallUndisturbed(s: State, t: State, p: nat, phase: Phase)
    requires ProcsOk(s) && Installed(s, t, p, phase)
    ensures Undisturbed(s, t, p)
  {
    forall q, i | q in s.procs && WriterOf(s.procs[q].phase, i)
      ensures i !in s.sealed
    {
      WriterHasInode(s, q, i);
    }
  }

  lemma InstallOk(s: State, t: State, p: nat, phase: Phase)
    requires Inv(s) && Installed(s, t, p, phase)
    ensures Inv(t)
  {
    InstallUndisturbed(s, t, p, phase);
    assert FilesOk(t) by {
      assert ProcOk(s, p);
    }
    MovedOk(s, t, p, phase);
  }

  lemma PublishOk(s: State, p: nat)
    requires Inv(s) && Enabled(s, Publish(p))
    ensures Inv(Apply(s, Publish(p)))
  {
    assert ProcOk(s, p);
    var op := s.procs[p].op;
    var t := ApplyPublish(s, p);
    if op.TempName() !in s.names {
      OnlyMoved(s, p, Cleaning(Failed));
    } else if op.PutIfNotExists? && Blob(op.key) in s.names {
      OnlyMoved(s, p, Cleaning(Refused));
    } else {
      InstallOk(s, t, p, t.procs[p].phase);
    }
  }

  predicate WritingStep(e: Event) {
    e.Begin? || e.Check? || e.OpenSource? || e.CreateTemp? || e.WriteChunk? || e.FinishWrite? || e.CopyChunk?
  }

  lemma WritingStepOk(s: State, e: Event)
    requires Inv(s) && Enabled(s, e) && WritingStep(e)
    ensures Inv(Apply(s, e))
  {
    match e
    case Begin(p, op) => BeginOk(s, p, op);
    case Check(p) => CheckOk(s, p);
    case OpenSource(p) => OpenSourceOk(s, p);
    case CreateTemp(p, ino) => CreateTempOk(s, p, ino);
    case WriteChunk(p) => WriteChunkOk(s, p);
    case FinishWrite(p) => FinishWriteOk(s, p);
    case CopyChunk(p, n) => CopyChunkOk(s, p, n);
  }

  lemma OtherStepOk(s: State, e: Event)
    requires Inv(s) && Enabled(s, e) && !WritingStep(e)
    ensures Inv(Apply(s, e))
  {
    match e
    case FinishCopy(p) => FinishCopyOk(s, p);
    case Fail(p, n) => FailOk(s, p, n);
    case Publish(p) => PublishOk(s, p);
    case CleanUp(p, removed) => CleanUpOk(s, p, removed);
    case Delete(key) => NamesTakenOk(s, Apply(s, e));
    case Sweep(_) => NamesTakenOk(s, Apply(s, e));
    case OpenReader(r, key) => OpenReaderOk(s, r, key);
    case ReadChunk(r, n) => ReadChunkOk(s, r, n);
    case EndRead(r) => EndReadOk(s, r);
  }

  /** Every step keeps the invariant. */
  lemma StepOk(s: State, e: Event)
    requires Inv(s) && Enabled(s, e)
    ensures Inv(Apply(s, e))
  {
    if WritingStep(e) {
      WritingStepOk(s, e);
    } else {
      OtherStepOk(s, e);
    }
  }

  lemma {:induction false} RunOk(s: State, events: seq<Event>, t: State)
    requires Inv(s) && Run(s, events, t)
    ensures Inv(t)
    decreases |events|
  {
    if events != [] {
      StepOk(s, events[0]);
      RunOk(Apply(s, events[0]), events[1..], t);
    }
  }

  lemma ReachableOk(t: State)
    requires Reachable(t)
    ensures Inv(t)
  {
    var s, events :| Init(s) && Run(s, events, t);
    InitOk(s);
    RunOk(s, events, t);
  }

  /** In every reachable state each blob holds a whole version: a body given in full to one write, or one that was there at the start. */
  lemma BlobsAreWhole(t: State, key: string)
    requires Reachable(t) && Blob(key) in t.names
    ensures t.Has(key) && t.Contents(key) in t.versions
  {
    ReachableOk(t);
  }

  // ---- Finished inodes and the streams on them ----

  ghost predicate KeepsFile(s: State, t: State, i: nat) {
    i in t.sealed && i in t.data && i in s.data && t.data[i] == s.data[i]
  }

  lemma WritingKeepsSealed(s: State, e: Event, i: nat)
    requires FilesOk(s) && Enabled(s, e) && WritingStep(e) && (e.p in s.procs ==> ProcOk(s, e.p)) && i in s.sealed
    ensures KeepsFile(s, Apply(s, e), i)
  {
  }

  lemma OtherKeepsSealed(s: State, e: Event, i: nat)
    requires FilesOk(s) && Enabled(s, e) && !WritingStep(e) && (e.Fail? && e.p in s.procs ==> ProcOk(s, e.p)) && i in s.sealed
    ensures KeepsFile(s, Apply(s, e), i)
  {
  }

  lemma StepKeepsSealed(s: State, e: Event, i: nat)
    requires Inv(s) && Enabled(s, e) && i in s.sealed
    ensures KeepsFile(s, Apply(s, e), i)
  {
    if WritingStep(e) {
      WritingKeepsSealed(s, e, i);
    } else {
      OtherKeepsSealed(s, e, i);
    }
  }

  /** An inode that has been published is never written again, in any run. */
  lemma {:induction false} SealedForever(s: State, events: seq<Event>, t: State, i: nat)
    requires Inv(s) && Run(s, events, t) && i in s.sealed
    ensures KeepsFile(s, t, i)
    decreases |events|
  {
    if events != [] {
      StepKeepsSealed(s, events[0], i);
      StepOk(s, events[0]);
      SealedForever(Apply(s, events[0]), events[1..], t, i);
    }
  }

  lemma WritingKeepsReaders(s: State, e: Event)
    requires Enabled(s, e) && WritingStep(e)
    ensures Apply(s, e).readers == s.readers
  {
  }

  lemma OtherKeepsReader(s: State, e: Event, r: nat)
    requires Enabled(s, e) && !WritingStep(e) && r in s.readers
    ensures var t := Apply(s, e); r in t.readers && t.readers[r].ino == s.readers[r].ino
  {
  }

  lemma {:induction false} RunKeepsReader(s: State, events: seq<Event>, t: State, r: nat)
    requires Run(s, events, t) && r in s.readers
    ensures r in t.readers && t.readers[r].ino == s.readers[r].ino
    decreases |events|
  {
    if events != [] {
      if WritingStep(events[0]) {
        WritingKeepsReaders(s, events[0]);
      } else {
        OtherKeepsReader(s, events[0], r);
      }
      RunKeepsReader(Apply(s, events[0]), events[1..], t, r);
    }
  }

  /**
    A stream yields the version its key had when it was opened: at every later moment what it has
    yielded is a prefix of that version, and once it has ended it is the version, whatever ran meanwhile.
   */
  lemma StreamYieldsOneVersion(s: State, r: nat, key: string, events: seq<Event>, t: State)
    requires Reachable(s) && Enabled(s, OpenReader(r, key)) && Run(Apply(s, OpenReader(r, key)), events, t)
    ensures s.Has(key) && s.Contents(key) in s.versions
    ensures r in t.readers && t.readers[r].out <= s.Contents(key)
    ensures t.readers[r].ended ==> t.readers[r].out == s.Contents(key)
  {
    BlobsAreWhole(s, key);
    ReachableOk(s);
    OpenedStream(s, r, key, events, t);
  }

  lemma OpenedStream(s: State, r: nat, key: string, events: seq<Event>, t: State)
    requires Inv(s) && Enabled(s, OpenReader(r, key)) && Run(Apply(s, OpenReader(r, key)), events, t)
    requires s.Has(key)
    ensures r in t.readers && t.readers[r].out <= s.Contents(key)
    ensures t.readers[r].ended ==> t.readers[r].out == s.Contents(key)
  {
    var u, i := Apply(s, OpenReader(r, key)), s.names[Blob(key)];
    assert i in s.sealed;
    assert u.readers[r].ino == i && u.sealed == s.sealed && u.data == s.data;
    StepOk(s, OpenReader(r, key));
    RunKeepsReader(u, events, t, r);
    SealedForever(u, events, t, i);
    assert ReadersOk(t) by { RunOk(u, events, t); }
  }
}
