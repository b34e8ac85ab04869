/** Which calls publish in the local store, and what conditional writes guarantee. */
module LocalStoreConditional {
  import opened ByteStrings
  import opened LocalStore
  import opened LocalStoreInvariant
  import opened LocalStoreRuns

  predicate HasStored(phase: Phase) {
    (phase.Cleaning? || phase.Done?) && phase.outcome == Stored
  }

  /** p is a conditional write of `key` that published in the given period between deletions of the key. */
  predicate Won(s: State, p: nat, key: string, epoch: nat) {
    && p in s.published && p in s.procs && s.procs[p].op.PutIfNotExists? && s.procs[p].op.key == key
    && s.published[p].epoch == epoch
  }

  ghost predicate PublicationsOk(s: State) {
    && (forall p | p in s.published :: p in s.procs && HasStored(s.procs[p].phase))
    && (forall p | p in s.procs && HasStored(s.procs[p].phase) :: p in s.published)
    && (forall p | p in s.published && p in s.procs ::
          && s.published[p].ino in s.sealed && s.published[p].ino in s.data
          && s.published[p].epoch <= s.Epoch(s.procs[p].op.key)
          && (!s.procs[p].op.Copy? ==> s.data[s.published[p].ino] == Flatten(s.procs[p].op.chunks)))
  }

  /** In each period a key has at most one winner; in the current one its entry stays, and nothing else explains an entry that no unconditional write made. */
  ghost predicate WinnersOk(s: State) {
    && (forall p, q, key, epoch | Won(s, p, key, epoch) && Won(s, q, key, epoch) :: p == q)
    && (forall p, key | Won(s, p, key, s.Epoch(key)) :: Blob(key) in s.names)
    && (forall key | Blob(key) in s.names && key !in s.clobbered ::
          exists p :: Won(s, p, key, s.Epoch(key)) && s.published[p].ino == s.names[Blob(key)])
  }

  ghost predicate Safe(s: State) {
    Inv(s) && HistoryOk(s)
  }

  ghost predicate CallsQuiet(s: State, t: State) {
    && (forall p | p in s.procs :: p in t.procs && t.procs[p].op == s.procs[p].op)
    && (forall p | p in t.procs :: HasStored(t.procs[p].phase) <==> p in s.procs && HasStored(s.procs[p].phase))
  }

  /** Publications, deletions and blob names are the same in s and t. */
  ghost predicate SameNames(s: State, t: State) {
    && t.published == s.published && t.epochs == s.epochs && t.clobbered == s.clobbered
    && forall n: Name | n.Blob? :: (n in t.names <==> n in s.names) && (n in s.names ==> t.names[n] == s.names[n])
  }

  /** The step publishes nothing and deletes nothing. */
  ghost predicate Quiet(s: State, t: State) {
    && SameNames(s, t) && CallsQuiet(s, t)
    && (forall i | i in s.sealed && i in s.data :: i in t.sealed && i in t.data && t.data[i] == s.data[i])
  }

  lemma QuietKeeps(s: State, t: State)
    requires PublicationsOk(s) && WinnersOk(s) && Quiet(s, t)
    ensures PublicationsOk(t) && WinnersOk(t)
  {
    assert forall key :: t.Epoch(key) == s.Epoch(key);
    assert forall p, key, epoch :: Won(t, p, key, epoch) <==> Won(s, p, key, epoch);
    forall key | Blob(key) in t.names && key !in t.clobbered
      ensures exists p :: Won(t, p, key, t.Epoch(key)) && t.published[p].ino == t.names[Blob(key)]
    {
      assert Blob(key) in s.names;
      var p :| Won(s, p, key, s.Epoch(key)) && s.published[p].ino == s.names[Blob(key)];
      assert Won(t, p, key, t.Epoch(key));
    }
  }

  /** Does this publishing step install its file? */
  predicate Installs(s: State, e: Event)
    requires Enabled(s, e)
  {
    e.Publish? && s.procs[e.p].op.TempName() in s.names && !(s.procs[e.p].op.PutIfNotExists? && Blob(s.procs[e.p].op.key) in s.names)
  }

  lemma QuietStep(s: State, e: Event)
    requires Inv(s) && Enabled(s, e) && !e.Delete? && !Installs(s, e)
    ensures Quiet(s, Apply(s, e))
  {
    var t := Apply(s, e);
    forall i | i in s.sealed && i in s.data
      ensures i in t.sealed && i in t.data && t.data[i] == s.data[i]
    {
      StepKeepsSealed(s, e, i);
    }
    QuietNames(s, e);
    QuietCalls(s, e);
  }

  lemma QuietNames(s: State, e: Event)
    requires Enabled(s, e) && !e.Delete? && !Installs(s, e)
    ensures SameNames(s, Apply(s, e))
  {
    if WritingStep(e) {
      WritingNames(s, e);
    } else {
      EndingNames(s, e);
    }
  }

  lemma WritingNames(s: State, e: Event)
    requires Enabled(s, e) && WritingStep(e)
    ensures SameNames(s, Apply(s, e))
  {
    if e.Begin? {
      assert SameNames(s, ApplyBegin(s, e.p, e.op));
    } else if e.CreateTemp? {
      CreateTempNames(s, e.p, e.ino);
    } else if e.WriteChunk? || e.CopyChunk? {
      AppendingNames(s, e);
    } else {
      MovingNames(s, e);
    }
  }

  /** The part of the state that names, publications and deletions make up. */
  predicate NamesUntouched(s: State, t: State) {
    t.names == s.names && t.published == s.published && t.epochs == s.epochs && t.clobbered == s.clobbered
  }

  lemma AppendingNames(s: State, e: Event)
    requires Enabled(s, e) && (e.WriteChunk? || e.CopyChunk?)
    ensures NamesUntouched(s, Apply(s, e))
  {
  }

  lemma MovingNames(s: State, e: Event)
    requires Enabled(s, e) && (e.Check? || e.OpenSource? || e.FinishWrite?)
    ensures NamesUntouched(s, Apply(s, e))
  {
  }

  lemma CreateTempNames(s: State, p: nat, ino: nat)
    requires Enabled(s, CreateTemp(p, ino))
    ensures SameNames(s, ApplyCreateTemp(s, p, ino))
  {
  }

  lemma EndingNames(s: State, e: Event)
    requires Enabled(s, e) && !WritingStep(e) && !e.Delete? && !Installs(s, e)
    ensures SameNames(s, Apply(s, e))
  {
    if e.Publish? {
      assert SameNames(s, ApplyPublish(s, e.p));
    } else if e.CleanUp? {
      CleanUpNames(s, e.p, e.removed);
    } else if e.Sweep? {
      assert SameNames(s, Apply(s, Sweep(e.name)));
    } else if e.FinishCopy? || e.Fail? {
      EndingWorkNames(s, e);
    } else {
      ReadingNames(s, e);
    }
  }

  lemma EndingWorkNames(s: State, e: Event)
    requires Enabled(s, e) && (e.FinishCopy? || e.Fail?)
    ensures NamesUntouched(s, Apply(s, e))
  {
  }

  lemma ReadingNames(s: State, e: Event)
    requires Enabled(s, e) && (e.OpenReader? || e.ReadChunk? || e.EndRead?)
    ensures NamesUntouched(s, Apply(s, e))
  {
  }

  lemma CleanUpNames(s: State, p: nat, removed: bool)
    requires Enabled(s, CleanUp(p, removed))
    ensures SameNames(s, Apply(s, CleanUp(p, removed)))
  {
  }

  lemma MoveQuiet(s: State, t: State, p: nat, phase: Phase)
    requires p in s.procs && t.procs == s.procs[p := s.procs[p].(phase := phase)]
    requires HasStored(phase) <==> HasStored(s.procs[p].phase)
    ensures CallsQuiet(s, t)
  {
  }

  predicate CallStep(e: Event) {
    WritingStep(e) || e.FinishCopy? || e.Fail? || e.Publish? || e.CleanUp?
  }

  /** An event that ends part of a call moves that call. */
  lemma EndingMoves(s: State, e: Event)
    requires Enabled(s, e) && CallStep(e) && !WritingStep(e)
    ensures e.p in s.procs && e.p in Apply(s, e).procs
    ensures Apply(s, e).procs == s.procs[e.p := s.procs[e.p].(phase := Apply(s, e).procs[e.p].phase)]
  {
    if e.Publish? {
      assert ApplyPublish(s, e.p).procs == s.procs[e.p := s.procs[e.p].(phase := ApplyPublish(s, e.p).procs[e.p].phase)];
    }
  }

  lemma WritingStoresNothing(s: State, e: Event)
    requires Enabled(s, e) && WritingStep(e) && !e.Begin?
    ensures e.p in s.procs && e.p in Apply(s, e).procs
    ensures Apply(s, e).procs == s.procs[e.p := s.procs[e.p].(phase := Apply(s, e).procs[e.p].phase)]
    ensures !HasStored(s.procs[e.p].phase) && !HasStored(Apply(s, e).procs[e.p].phase)
  {
    if e.CreateTemp? {
      assert ApplyCreateTemp(s, e.p, e.ino).procs == s.procs[e.p := s.procs[e.p].(phase := ApplyCreateTemp(s, e.p, e.ino).procs[e.p].phase)];
    }
  }

  lemma EndingStoresNothing(s: State, e: Event)
    requires Enabled(s, e) && CallStep(e) && !WritingStep(e) && !Installs(s, e)
    ensures e.p in s.procs && e.p in Apply(s, e).procs
    ensures HasStored(Apply(s, e).procs[e.p].phase) <==> HasStored(s.procs[e.p].phase)
  {
    if e.Publish? {
      assert !HasStored(ApplyPublish(s, e.p).procs[e.p].phase);
    }
  }

  lemma QuietCallStep(s: State, e: Event)
    requires Enabled(s, e) && CallStep(e) && !e.Begin? && !Installs(s, e)
    ensures CallsQuiet(s, Apply(s, e))
  {
    if WritingStep(e) {
      WritingStoresNothing(s, e);
    } else {
      EndingMoves(s, e);
      EndingStoresNothing(s, e);
    }
    MoveQuiet(s, Apply(s, e), e.p, Apply(s, e).procs[e.p].phase);
  }

  lemma QuietCalls(s: State, e: Event)
    requires Enabled(s, e) && !Installs(s, e)
    ensures CallsQuiet(s, Apply(s, e))
  {
    if CallStep(e) && !e.Begin? {
      QuietCallStep(s, e);
    }
  }

  lemma InstallRecords(s: State, p: nat)
    requires p in s.procs && ProcOk(s, p) && Enabled(s, Publish(p)) && Installs(s, Publish(p))
    ensures var t, proc := Apply(s, Publish(p)), s.procs[p];
            && t.published == s.published[p := Publication(s.Epoch(proc.op.key), proc.phase.ino)]
            && t.sealed == s.sealed && t.data == s.data && t.epochs == s.epochs
            && p in t.procs && t.procs == s.procs[p := proc.(phase := t.procs[p].phase)] && HasStored(t.procs[p].phase)
            && proc.phase.ino in s.sealed && proc.phase.ino in s.data
            && (!proc.op.Copy? ==> s.data[proc.phase.ino] == Flatten(proc.op.chunks))
  {
  }

  lemma InstallPublications(s: State, p: nat)
    requires PublicationsOk(s) && p in s.procs && ProcOk(s, p) && Enabled(s, Publish(p)) && Installs(s, Publish(p))
    ensures PublicationsOk(Apply(s, Publish(p)))
  {
    InstallRecords(s, p);
    RecordedOk(s, Apply(s, Publish(p)), p);
  }

  lemma RecordedOk(s: State, t: State, p: nat)
    requires PublicationsOk(s) && p in s.procs && s.procs[p].phase.Written?
    requires var proc := s.procs[p];
             && t.published == s.published[p := Publication(s.Epoch(proc.op.key), proc.phase.ino)]
             && t.sealed == s.sealed && t.data == s.data && t.epochs == s.epochs
             && p in t.procs && t.procs == s.procs[p := proc.(phase := t.procs[p].phase)] && HasStored(t.procs[p].phase)
             && proc.phase.ino in s.sealed && proc.phase.ino in s.data
             && (!proc.op.Copy? ==> s.data[proc.phase.ino] == Flatten(proc.op.chunks))
    ensures PublicationsOk(t)
  {
  }

  lemma LinkedWon(s: State, p: nat)
    requires PublicationsOk(s) && Enabled(s, Publish(p)) && Installs(s, Publish(p)) && s.procs[p].op.PutIfNotExists?
    ensures var t, mine := Apply(s, Publish(p)), s.procs[p].op.key;
            && Blob(mine) !in s.names && (forall key :: t.Epoch(key) == s.Epoch(key)) && t.clobbered == s.clobbered
            && (forall key :: Blob(key) in t.names <==> Blob(key) in s.names || key == mine)
            && p !in s.published && t.published == s.published[p := Publication(s.Epoch(mine), t.names[Blob(mine)])]
            && forall q, key, epoch :: Won(t, q, key, epoch) <==> Won(s, q, key, epoch) || (q == p && key == mine && epoch == s.Epoch(mine))
  {
    assert p !in s.published;
  }

  /** The entries other than p's keep their explanation. */
  lemma LinkExplains(s: State, p: nat, key: string)
    requires PublicationsOk(s) && WinnersOk(s) && Enabled(s, Publish(p)) && Installs(s, Publish(p)) && s.procs[p].op.PutIfNotExists?
    requires var t := Apply(s, Publish(p)); Blob(key) in t.names && key !in t.clobbered
    ensures var t := Apply(s, Publish(p)); exists q :: Won(t, q, key, t.Epoch(key)) && t.published[q].ino == t.names[Blob(key)]
  {
    var t := Apply(s, Publish(p));
    LinkedWon(s, p);
    if key == s.procs[p].op.key {
      assert Won(t, p, key, t.Epoch(key));
    } else {
      assert Blob(key) in s.names && t.names[Blob(key)] == s.names[Blob(key)];
      var q :| Won(s, q, key, s.Epoch(key)) && s.published[q].ino == s.names[Blob(key)];
      assert Won(t, q, key, t.Epoch(key));
    }
  }

  /** A hard link makes p the winner of its period, and there was none. */
  lemma LinkWinners(s: State, p: nat)
    requires PublicationsOk(s) && WinnersOk(s) && Enabled(s, Publish(p)) && Installs(s, Publish(p)) && s.procs[p].op.PutIfNotExists?
    ensures WinnersOk(Apply(s, Publish(p)))
    ensures var t := Apply(s, Publish(p)); Won(t, p, s.procs[p].op.key, t.Epoch(s.procs[p].op.key))
  {
    var t := Apply(s, Publish(p));
    LinkedWon(s, p);
    forall key | Blob(key) in t.names && key !in t.clobbered
      ensures exists q :: Won(t, q, key, t.Epoch(key)) && t.published[q].ino == t.names[Blob(key)]
    {
      LinkExplains(s, p, key);
    }
  }

  /** A rename over the key makes no winner, keeps the entry and marks it as possibly unconditional. */
  lemma RenameWinners(s: State, p: nat)
    requires PublicationsOk(s) && WinnersOk(s) && p in s.procs && ProcOk(s, p) && Enabled(s, Publish(p)) && Installs(s, Publish(p)) && !s.procs[p].op.PutIfNotExists?
    ensures WinnersOk(Apply(s, Publish(p)))
  {
    var t, mine := Apply(s, Publish(p)), s.procs[p].op.key;
    assert forall key :: t.Epoch(key) == s.Epoch(key);
    assert p !in s.published;
    assert forall q, key, epoch :: Won(t, q, key, epoch) <==> Won(s, q, key, epoch);
    forall q, key | Won(t, q, key, t.Epoch(key))
      ensures Blob(key) in t.names
    {
      assert Won(s, q, key, s.Epoch(key));
    }
    forall key | Blob(key) in t.names && key !in t.clobbered
      ensures exists q :: Won(t, q, key, t.Epoch(key)) && t.published[q].ino == t.names[Blob(key)]
    {
      var q :| Won(s, q, key, s.Epoch(key)) && s.published[q].ino == s.names[Blob(key)];
      assert Won(t, q, key, t.Epoch(key));
    }
  }

  lemma DeleteKeepsPublications(s: State, mine: string)
    requires PublicationsOk(s) && Enabled(s, Delete(mine))
    ensures PublicationsOk(Apply(s, Delete(mine)))
  {
    var t := Apply(s, Delete(mine));
    assert forall key :: t.Epoch(key) == if key == mine then s.Epoch(key) + 1 else s.Epoch(key);
  }

  lemma DeleteKeepsWinners(s: State, mine: string)
    requires PublicationsOk(s) && WinnersOk(s) && Enabled(s, Delete(mine))
    ensures WinnersOk(Apply(s, Delete(mine)))
  {
    var t := Apply(s, Delete(mine));
    assert forall key :: t.Epoch(key) == if key == mine then s.Epoch(key) + 1 else s.Epoch(key);
    assert forall q, key, epoch :: Won(t, q, key, epoch) <==> Won(s, q, key, epoch);
    forall q, epoch: nat | Won(s, q, mine, epoch)
      ensures epoch <= s.Epoch(mine)
    {
    }
    forall key | Blob(key) in t.names && key !in t.clobbered
      ensures exists q :: Won(t, q, key, t.Epoch(key)) && t.published[q].ino == t.names[Blob(key)]
    {
      var q :| Won(s, q, key, s.Epoch(key)) && s.published[q].ino == s.names[Blob(key)];
      assert Won(t, q, key, t.Epoch(key));
    }
  }

  lemma DeleteKeeps(s: State, mine: string)
    requires PublicationsOk(s) && WinnersOk(s) && Enabled(s, Delete(mine))
    ensures PublicationsOk(Apply(s, Delete(mine))) && WinnersOk(Apply(s, Delete(mine)))
  {
    DeleteKeepsPublications(s, mine);
    DeleteKeepsWinners(s, mine);
  }

  lemma InstallSafe(s: State, p: nat)
    requires PublicationsOk(s) && WinnersOk(s) && p in s.procs && ProcOk(s, p)
    requires Enabled(s, Publish(p)) && Installs(s, Publish(p))
    ensures PublicationsOk(Apply(s, Publish(p))) && WinnersOk(Apply(s, Publish(p)))
  {
    InstallPublications(s, p);
    if s.procs[p].op.PutIfNotExists? {
      LinkWinners(s, p);
    } else {
      RenameWinners(s, p);
    }
  }

  ghost predicate HistoryOk(s: State) {
    PublicationsOk(s) && WinnersOk(s)
  }

  lemma QuietSafe(s: State, e: Event)
    requires Inv(s) && HistoryOk(s) && Enabled(s, e) && !e.Delete? && !Installs(s, e)
    ensures HistoryOk(Apply(s, e))
  {
    QuietStep(s, e);
    QuietKeeps(s, Apply(s, e));
  }

  lemma LoudSafe(s: State, e: Event)
    requires ProcsOk(s) && HistoryOk(s) && Enabled(s, e) && (e.Delete? || Installs(s, e))
    ensures HistoryOk(Apply(s, e))
  {
    if e.Delete? {
      DeleteKeeps(s, e.key);
    } else {
      assert ProcOk(s, e.p);
      InstallSafe(s, e.p);
    }
  }

  lemma StepHistory(s: State, e: Event)
    requires Inv(s) && HistoryOk(s) && Enabled(s, e)
    ensures HistoryOk(Apply(s, e))
  {
    if e.Delete? || Installs(s, e) {
      LoudSafe(s, e);
    } else {
      QuietSafe(s, e);
    }
  }

  lemma StepSafe(s: State, e: Event)
    requires Safe(s) && Enabled(s, e)
    ensures Safe(Apply(s, e))
  {
    StepHistory(s, e);
    StepOk(s, e);
  }

  lemma {:induction false} RunSafe(s: State, events: seq<Event>, t: State)
    requires Safe(s) && Run(s, events, t)
    ensures Safe(t)
    decreases |events|
  {
    if events != [] {
      StepSafe(s, events[0]);
      RunSafe(Apply(s, events[0]), events[1..], t);
    }
  }

  lemma InitSafe(s: State)
    requires Init(s)
    ensures Safe(s)
  {
    InitOk(s);
  }

  lemma ReachableSafe(t: State)
    requires Reachable(t)
    ensures Safe(t)
  {
    var s, events :| Init(s) && Run(s, events, t);
    InitSafe(s);
    RunSafe(s, events, t);
  }
}
