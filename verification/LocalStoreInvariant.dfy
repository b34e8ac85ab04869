/** What every reachable state of the local store keeps. */
module LocalStoreInvariant {
  import opened ByteStrings
  import opened Sequences
  import opened LocalStore

  /** Every name leads to an inode, blob names lead to finished ones, and finished inodes hold whole versions. */
  ghost predicate FilesOk(s: State) {
    && (forall n | n in s.names :: s.names[n] in s.data)
    && (forall i | i in s.sealed :: i in s.data && s.data[i] in s.versions)
    && (forall n | n in s.names && n.Blob? :: s.names[n] in s.sealed)
  }

  predicate TempLeads(s: State, op: Op, ino: nat) {
    op.TempName() in s.names ==> s.names[op.TempName()] == ino
  }

  predicate WriterOf(phase: Phase, ino: nat) {
    (phase.Writing? || phase.Copying?) && phase.ino == ino
  }

  ghost predicate PhaseOk(s: State, op: Op, phase: Phase) {
    match phase
    case Checking => op.CheckThenPut? && op.TempName() !in s.names
    case Opening => op.TempName() !in s.names
    case SourceOpen(src) => op.Copy? && op.TempName() !in s.names && src in s.sealed
    case Writing(ino, left) =>
      && !op.Copy? && ino in s.data && ino !in s.sealed && TempLeads(s, op, ino)
      && s.data[ino] + Flatten(left) == Flatten(op.chunks)
    case Copying(ino, src) =>
      && op.Copy? && ino in s.data && ino !in s.sealed && TempLeads(s, op, ino)
      && src in s.sealed && src in s.data && s.data[ino] <= s.data[src]
    case Written(ino) =>
      && ino in s.sealed && ino in s.data && TempLeads(s, op, ino)
      && (!op.Copy? ==> s.data[ino] == Flatten(op.chunks))
    case Cleaning(_) => true
    case Done(_) => true
  }

  ghost predicate ProcOk(s: State, p: nat)
    requires p in s.procs
  {
    var op := s.procs[p].op;
    && (!op.Copy? && !op.broken ==> Flatten(op.chunks) in s.versions)
    && PhaseOk(s, op, s.procs[p].phase)
  }

  ghost predicate ProcsOk(s: State) {
    forall p | p in s.procs :: ProcOk(s, p)
  }

  /** Calls differ in their UUID, and no two of them write the same inode. */
  ghost predicate PairsOk(s: State) {
    forall p, q | p in s.procs && q in s.procs && p != q ::
      s.procs[p].op.id != s.procs[q].op.id
      && forall i :: !(WriterOf(s.procs[p].phase, i) && WriterOf(s.procs[q].phase, i))
  }

  ghost predicate ReadersOk(s: State) {
    forall r | r in s.readers ::
      var rd := s.readers[r];
      rd.ino in s.sealed && rd.ino in s.data && rd.out <= s.data[rd.ino] && (rd.ended ==> rd.out == s.data[rd.ino])
  }

  ghost predicate Inv(s: State) {
    FilesOk(s) && ProcsOk(s) && PairsOk(s) && ReadersOk(s)
  }

  lemma InitOk(s: State)
    requires Init(s)
    ensures Inv(s)
  {
  }

  /** What a step may change without disturbing the calls and streams that do not take it. */
  ghost predicate Undisturbed(s: State, t: State, p: nat) {
    && s.sealed <= t.sealed && s.versions <= t.versions
    && s.data.Keys <= t.data.Keys
    && (forall i | i in s.sealed && i in s.data :: t.data[i] == s.data[i])
    && (forall q, i | q in s.procs && q != p && i in s.data && WriterOf(s.procs[q].phase, i) ::
          t.data[i] == s.data[i] && i !in t.sealed)
    && (forall q | q in s.procs && q != p ::
          q in t.procs && t.procs[q] == s.procs[q]
          && var temp := s.procs[q].op.TempName();
             temp in t.names ==> temp in s.names && t.names[temp] == s.names[temp])
    && t.procs.Keys <= s.procs.Keys + {p}
  }

  lemma OthersOk(s: State, t: State, p: nat)
    requires ProcsOk(s) && Undisturbed(s, t, p) && (p in t.procs ==> ProcOk(t, p))
    ensures ProcsOk(t)
  {
    forall q | q in t.procs && q != p
      ensures ProcOk(t, q)
    {
      assert ProcOk(s, q);
      assert t.procs[q] == s.procs[q];
    }
  }

  lemma StreamsOk(s: State, t: State, p: nat)
    requires FilesOk(s) && ReadersOk(s) && Undisturbed(s, t, p) && t.readers == s.readers
    ensures ReadersOk(t)
  {
  }

  /** The calls of t are those of s with p moved to `phase`. */
  predicate Moved(s: State, t: State, p: nat, phase: Phase) {
    p in s.procs && t.procs == s.procs[p := s.procs[p].(phase := phase)] && t.readers == s.readers
  }

  lemma WriterHasInode(s: State, q: nat, i: nat)
    requires ProcsOk(s) && q in s.procs && WriterOf(s.procs[q].phase, i)
    ensures i in s.data && i !in s.sealed
  {
    assert ProcOk(s, q);
  }

  lemma MovedPairs(s: State, t: State, p: nat, phase: Phase)
    requires ProcsOk(s) && PairsOk(s) && Moved(s, t, p, phase)
    requires forall i | WriterOf(phase, i) :: WriterOf(s.procs[p].phase, i) || i !in s.data
    ensures PairsOk(t)
  {
    forall q, i | q in s.procs && q != p && WriterOf(s.procs[q].phase, i)
      ensures !WriterOf(phase, i)
    {
      WriterHasInode(s, q, i);
    }
  }

  lemma MovedOk(s: State, t: State, p: nat, phase: Phase)
    requires Inv(s) && Moved(s, t, p, phase) && Undisturbed(s, t, p) && FilesOk(t)
    requires PhaseOk(t, s.procs[p].op, phase)
    requires forall i | WriterOf(phase, i) :: WriterOf(s.procs[p].phase, i) || i !in s.data
    ensures Inv(t)
  {
    assert ProcOk(t, p) by {
      assert ProcOk(s, p);
    }
    OthersOk(s, t, p);
    StreamsOk(s, t, p);
    MovedPairs(s, t, p, phase);
  }

  /** A step that only moves p. */
  lemma OnlyMoved(s: State, p: nat, phase: Phase)
    requires Inv(s) && p in s.procs && PhaseOk(s, s.procs[p].op, phase)
    requires forall i | WriterOf(phase, i) :: WriterOf(s.procs[p].phase, i)
    ensures Inv(Move(s, p, phase))
  {
    forall q, i | q in s.procs && q != p && WriterOf(s.procs[q].phase, i)
      ensures i !in s.sealed
    {
      WriterHasInode(s, q, i);
    }
    MovedOk(s, Move(s, p, phase), p, phase);
  }

  lemma CheckOk(s: State, p: nat)
    requires Inv(s) && Enabled(s, Check(p))
    ensures Inv(Apply(s, Check(p)))
  {
    assert ProcOk(s, p);
    OnlyMoved(s, p, if Blob(s.procs[p].op.key) in s.names then Done(Refused) else Opening);
  }

  lemma OpenSourceOk(s: State, p: nat)
    requires Inv(s) && Enabled(s, OpenSource(p))
    ensures Inv(Apply(s, OpenSource(p)))
  {
    assert ProcOk(s, p);
    var from := Blob(s.procs[p].op.from);
    OnlyMoved(s, p, if from in s.names then SourceOpen(s.names[from]) else Cleaning(Failed));
  }

  /** Writing more bytes into p's own unfinished inode disturbs nothing else. */
  lemma AppendUndisturbed(s: State, p: nat, bytes: Bytes, phase: Phase)
    requires Inv(s) && p in s.procs && (s.procs[p].phase.Writing? || s.procs[p].phase.Copying?)
    ensures var t := Move(Append(s, s.procs[p].phase.ino, bytes), p, phase);
            Undisturbed(s, t, p) && FilesOk(t)
  {
    var ino := s.procs[p].phase.ino;
    assert ProcOk(s, p);
    assert WriterOf(s.procs[p].phase, ino);
    forall q, i | q in s.procs && q != p && WriterOf(s.procs[q].phase, i)
      ensures i !in s.sealed && i != ino
    {
      assert ProcOk(s, q);
    }
  }

  lemma WriteChunkOk(s: State, p: nat)
    requires Inv(s) && Enabled(s, WriteChunk(p))
    ensures Inv(Apply(s, WriteChunk(p)))
  {
    assert ProcOk(s, p);
    var ph := s.procs[p].phase;
    var phase := Writing(ph.ino, ph.left[1..]);
    AppendUndisturbed(s, p, ph.left[0], phase);
    var t := Move(Append(s, ph.ino, ph.left[0]), p, phase);
    assert PhaseOk(t, s.procs[p].op, phase) by {
      ConcatAssociative(s.data[ph.ino], ph.left[0], Flatten(ph.left[1..]));
    }
    MovedOk(s, t, p, phase);
  }

  lemma CopyChunkOk(s: State, p: nat, n: nat)
    requires Inv(s) && Enabled(s, CopyChunk(p, n))
    ensures Inv(Apply(s, CopyChunk(p, n)))
  {
    assert ProcOk(s, p);
    var ph := s.procs[p].phase;
    var bytes := NextBytes(s.data[ph.src], s.data[ph.ino], n);
    PrefixGrows(s.data[ph.ino], s.data[ph.src], n);
    AppendUndisturbed(s, p, bytes, ph);
    CopiedOk(s, p, bytes);
  }

  lemma CopiedOk(s: State, p: nat, bytes: Bytes)
    requires Inv(s) && p in s.procs && s.procs[p].phase.Copying? && ProcOk(s, p)
    requires var ph := s.procs[p].phase; s.data[ph.ino] + bytes <= s.data[ph.src]
    requires var t := Move(Append(s, s.procs[p].phase.ino, bytes), p, s.procs[p].phase); Undisturbed(s, t, p) && FilesOk(t)
    ensures Inv(Move(Append(s, s.procs[p].phase.ino, bytes), p, s.procs[p].phase))
  {
    var ph := s.procs[p].phase;
    MovedOk(s, Move(Append(s, ph.ino, bytes), p, ph), p, ph);
  }

  lemma PrefixGrows(out: Bytes, all: Bytes, n: nat)
    requires out <= all && |out| + n <= |all|
    ensures out + NextBytes(all, out, n) <= all
  {
    assert out == all[..|out|];
    assert all[..|out|] + all[|out|..|out| + n] == all[..|out| + n];
  }

  /** A call may give up at any time. */
  lemma GiveUpOk(s: State, p: nat)
    requires Inv(s) && p in s.procs
    ensures Inv(Move(s, p, Cleaning(Failed)))
  {
    OnlyMoved(s, p, Cleaning(Failed));
  }

  lemma FailedOk(s: State, p: nat, n: nat)
    requires Inv(s) && InPhase(s, p, Fail(p, n))
    ensures Inv(ApplyFail(s, p, n))
  {
    var ph := s.procs[p].phase;
    if ph.Writing? && n > 0 {
      assert |ph.left[0]| >= n;
      FailedWriteOk(s, p, ph.left[0][..n]);
    } else {
      GiveUpOk(s, p);
    }
  }

  lemma FailOk(s: State, p: nat, n: nat)
    requires Inv(s) && Enabled(s, Fail(p, n))
    ensures Inv(Apply(s, Fail(p, n)))
  {
    FailedOk(s, p, n);
  }

  /** A write that fails may still have put some bytes in the file. */
  lemma FailedWriteOk(s: State, p: nat, bytes: Bytes)
    requires Inv(s) && p in s.procs && s.procs[p].phase.Writing?
    ensures Inv(Move(Append(s, s.procs[p].phase.ino, bytes), p, Cleaning(Failed)))
  {
    AppendUndisturbed(s, p, bytes, Cleaning(Failed));
    MovedOk(s, Move(Append(s, s.procs[p].phase.ino, bytes), p, Cleaning(Failed)), p, Cleaning(Failed));
  }

  /** Finishing p's inode, when what it holds is a whole version. */
  lemma SealOk(s: State, p: nat)
    requires Inv(s) && p in s.procs && (s.procs[p].phase.Writing? || s.procs[p].phase.Copying?)
    requires var ino := s.procs[p].phase.ino;
             ino in s.data && s.data[ino] in s.versions && (!s.procs[p].op.Copy? ==> s.data[ino] == Flatten(s.procs[p].op.chunks))
    ensures var ino := s.procs[p].phase.ino;
            Inv(Move(s, p, Written(ino)).(sealed := s.sealed + {ino}))
  {
    var ino := s.procs[p].phase.ino;
    var t := Move(s, p, Written(ino)).(sealed := s.sealed + {ino});
    assert WriterOf(s.procs[p].phase, ino);
    assert PhaseOk(t, s.procs[p].op, Written(ino)) by {
      assert ProcOk(s, p);
    }
    SealUndisturbed(s, p, ino);
    MovedOk(s, t, p, Written(ino));
  }

  lemma SealUndisturbed(s: State, p: nat, ino: nat)
    requires ProcsOk(s) && PairsOk(s) && p in s.procs && WriterOf(s.procs[p].phase, ino)
    ensures Undisturbed(s, Move(s, p, Written(ino)).(sealed := s.sealed + {ino}), p)
  {
    forall q, i | q in s.procs && q != p && WriterOf(s.procs[q].phase, i)
      ensures i !in s.sealed && i != ino
    {
      WriterHasInode(s, q, i);
      WritersApart(s, p, ino, q, i);
    }
  }

  lemma WritersApart(s: State, p: nat, i: nat, q: nat, j: nat)
    requires PairsOk(s) && p in s.procs && q in s.procs && p != q && WriterOf(s.procs[p].phase, i) && WriterOf(s.procs[q].phase, j)
    ensures i != j
  {
  }

  /** When nothing is left to write, the file is the whole body. */
  lemma WholeWritten(s: State, p: nat)
    requires p in s.procs && ProcOk(s, p) && s.procs[p].phase.Writing? && s.procs[p].phase.left == []
    ensures !s.procs[p].op.Copy? && s.procs[p].phase.ino in s.data
    ensures s.data[s.procs[p].phase.ino] == Flatten(s.procs[p].op.chunks)
    ensures !s.procs[p].op.broken ==> s.data[s.procs[p].phase.ino] in s.versions
  {
    var ino := s.procs[p].phase.ino;
    assert s.data[ino] + [] == s.data[ino];
  }

  lemma FinishWriteOk(s: State, p: nat)
    requires Inv(s) && Enabled(s, FinishWrite(p))
    ensures Inv(Apply(s, FinishWrite(p)))
  {
    assert ProcOk(s, p);
    WholeWritten(s, p);
    if s.procs[p].op.broken {
      GiveUpOk(s, p);
    } else {
      SealOk(s, p);
    }
  }

  lemma FinishCopyOk(s: State, p: nat)
    requires Inv(s) && Enabled(s, FinishCopy(p))
    ensures Inv(Apply(s, FinishCopy(p)))
    ensures var ph := s.procs[p].phase; s.data[ph.ino] == s.data[ph.src]
  {
    assert ProcOk(s, p);
    var ph := s.procs[p].phase;
    assert s.data[ph.ino] == s.data[ph.src];
    SealOk(s, p);
  }

  lemma CleanUpOk(s: State, p: nat, removed: bool)
    requires Inv(s) && Enabled(s, CleanUp(p, removed))
    ensures Inv(Apply(s, CleanUp(p, removed)))
  {
    var t := Apply(s, CleanUp(p, removed));
    var phase := Done(s.procs[p].phase.outcome);
    if removed {
      RemovedUndisturbed(s, t, p);
      MovedOk(s, t, p, phase);
    } else {
      OnlyMoved(s, p, phase);
    }
  }

  /** Taking names away disturbs nobody. */
  lemma RemovedUndisturbed(s: State, t: State, p: nat)
    requires Inv(s) && t.names.Keys <= s.names.Keys && forall n | n in t.names :: t.names[n] == s.names[n]
    requires t.data == s.data && t.sealed == s.sealed && t.versions == s.versions
    requires t.procs.Keys <= s.procs.Keys + {p} && forall q | q in s.procs && q != p :: q in t.procs && t.procs[q] == s.procs[q]
    ensures Undisturbed(s, t, p) && FilesOk(t)
  {
    forall q, i | q in s.procs && q != p && WriterOf(s.procs[q].phase, i)
      ensures i !in s.sealed
    {
      assert ProcOk(s, q);
    }
  }

  lemma NamesTakenOk(s: State, t: State)
    requires Inv(s) && t.names.Keys <= s.names.Keys && forall n | n in t.names :: t.names[n] == s.names[n]
    requires t.data == s.data && t.sealed == s.sealed && t.versions == s.versions && t.procs == s.procs && t.readers == s.readers
    ensures Inv(t)
  {
    forall p | p in t.procs
      ensures ProcOk(t, p)
    {
      assert ProcOk(s, p);
    }
  }

  /** Only the streams change. */
  lemma ReadersMovedOk(s: State, readers: map<nat, Reader>)
    requires Inv(s) && ReadersOk(s.(readers := readers))
    ensures Inv(s.(readers := readers))
  {
    var t := s.(readers := readers);
    forall p | p in t.procs
      ensures ProcOk(t, p)
    {
      assert ProcOk(s, p);
    }
  }

  lemma OpenReaderOk(s: State, r: nat, key: string)
    requires Inv(s) && Enabled(s, OpenReader(r, key))
    ensures Inv(Apply(s, OpenReader(r, key)))
  {
    ReadersMovedOk(s, s.readers[r := Reader(s.names[Blob(key)], [], false)]);
  }

  lemma ReadChunkOk(s: State, r: nat, n: nat)
    requires Inv(s) && Enabled(s, ReadChunk(r, n))
    ensures Inv(Apply(s, ReadChunk(r, n)))
  {
    var rd := s.readers[r];
    PrefixGrows(rd.out, s.data[rd.ino], n);
    ReadersMovedOk(s, s.readers[r := Reader(rd.ino, rd.out + NextBytes(s.data[rd.ino], rd.out, n), false)]);
  }

  lemma EndReadOk(s: State, r: nat)
    requires Inv(s) && Enabled(s, EndRead(r))
    ensures Inv(Apply(s, EndRead(r)))
  {
    ReadersMovedOk(s, s.readers[r := s.readers[r].(ended := true)]);
  }
}
