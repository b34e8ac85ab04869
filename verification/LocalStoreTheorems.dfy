/** What callers of the local store can rely on, and what the trait's default conditional write admits. */
module LocalStoreTheorems {
  import opened ByteStrings
  import opened LocalStore
  import opened LocalStoreInvariant
  import opened LocalStoreRuns
  import opened LocalStoreConditional

  // ---- Conditional writes ----

  /** Between two deletions of a key at most one conditional write returns Some. */
  lemma AtMostOneWinner(t: State, p: nat, q: nat)
    requires Reachable(t) && p in t.procs && q in t.procs
    requires t.procs[p].op.PutIfNotExists? && t.procs[q].op.PutIfNotExists? && t.procs[p].op.key == t.procs[q].op.key
    requires HasStored(t.procs[p].phase) && HasStored(t.procs[q].phase)
    ensures p in t.published && q in t.published
    ensures t.published[p].epoch == t.published[q].epoch ==> p == q
  {
    ReachableSafe(t);
    var key := t.procs[p].op.key;
    assert Won(t, p, key, t.published[p].epoch) && Won(t, q, key, t.published[q].epoch);
  }

  /** While the key is neither deleted nor unconditionally written, it holds the winner's whole body. */
  lemma WinnerIsStored(t: State, p: nat, key: string)
    requires Reachable(t) && Won(t, p, key, t.Epoch(key)) && key !in t.clobbered
    ensures t.Has(key) && t.names[Blob(key)] == t.published[p].ino && t.Contents(key) == Flatten(t.procs[p].op.chunks)
  {
    ReachableSafe(t);
    assert Blob(key) in t.names;
    var q :| Won(t, q, key, t.Epoch(key)) && t.published[q].ino == t.names[Blob(key)];
    assert q == p;
  }

  /**
    A conditional write that reaches its link step without an I/O error, in a period without
    unconditional writes, leaves exactly one winner of the period; it is that write itself exactly
    when the key was absent.
   */
  lemma LinkDecides(s: State, p: nat)
    requires Reachable(s) && Enabled(s, Publish(p))
    requires s.procs[p].op.PutIfNotExists? && s.procs[p].op.TempName() in s.names && s.procs[p].op.key !in s.clobbered
    ensures var t, key := Apply(s, Publish(p)), s.procs[p].op.key;
            && (exists w :: Won(t, w, key, t.Epoch(key)))
            && (forall v, w | Won(t, v, key, t.Epoch(key)) && Won(t, w, key, t.Epoch(key)) :: v == w)
            && (Won(t, p, key, t.Epoch(key)) <==> Blob(key) !in s.names)
  {
    ReachableSafe(s);
    StepHistory(s, Publish(p));
    LinkedKey(s, Apply(s, Publish(p)), p);
  }

  lemma LinkedKey(s: State, t: State, p: nat)
    requires HistoryOk(s) && HistoryOk(t) && Enabled(s, Publish(p)) && t == ApplyPublish(s, p)
    requires s.procs[p].op.PutIfNotExists? && s.procs[p].op.TempName() in s.names && s.procs[p].op.key !in s.clobbered
    ensures var key := s.procs[p].op.key;
            && (exists w :: Won(t, w, key, t.Epoch(key)))
            && (forall v, w | Won(t, v, key, t.Epoch(key)) && Won(t, w, key, t.Epoch(key)) :: v == w)
            && (Won(t, p, key, t.Epoch(key)) <==> Blob(key) !in s.names)
  {
    NotYetPublished(s, p);
    LinkedOrNot(s, t, p);
    OneWinnerNow(t, s.procs[p].op.key);
  }

  lemma NotYetPublished(s: State, p: nat)
    requires HistoryOk(s) && p in s.procs && s.procs[p].phase.Written?
    ensures p !in s.published
  {
  }

  lemma LinkedOrNot(s: State, t: State, p: nat)
    requires p !in s.published && Enabled(s, Publish(p)) && t == ApplyPublish(s, p)
    requires s.procs[p].op.PutIfNotExists? && s.procs[p].op.TempName() in s.names && s.procs[p].op.key !in s.clobbered
    ensures Blob(s.procs[p].op.key) in t.names && s.procs[p].op.key !in t.clobbered
    ensures Won(t, p, s.procs[p].op.key, t.Epoch(s.procs[p].op.key)) <==> Blob(s.procs[p].op.key) !in s.names
  {
  }

  /** In a period without unconditional writes, an entry that is there has exactly one winner. */
  lemma OneWinnerNow(t: State, key: string)
    requires HistoryOk(t) && Blob(key) in t.names && key !in t.clobbered
    ensures exists w :: Won(t, w, key, t.Epoch(key))
    ensures forall v, w | Won(t, v, key, t.Epoch(key)) && Won(t, w, key, t.Epoch(key)) :: v == w
  {
  }

  // ---- What calls do to the blobs ----

  /** A call that did not return success published nothing. */
  lemma UnsuccessfulPublishedNothing(t: State, p: nat)
    requires Reachable(t) && p in t.procs && !HasStored(t.procs[p].phase)
    ensures p !in t.published
  {
    ReachableSafe(t);
  }

  /** A step that deletes nothing and installs nothing leaves every blob name and its contents as they were. */
  lemma QuietStepKeepsBlobs(s: State, e: Event, key: string)
    requires Reachable(s) && Enabled(s, e) && !e.Delete? && !Installs(s, e)
    ensures var t := Apply(s, e);
            (t.Has(key) <==> s.Has(key)) && (s.Has(key) ==> t.Contents(key) == s.Contents(key)) && t.published == s.published
  {
    ReachableOk(s);
    FilesKept(s, e);
    QuietStep(s, e);
    SameBlob(s, Apply(s, e), key);
  }

  lemma FilesKept(s: State, e: Event)
    requires Inv(s) && Enabled(s, e)
    ensures FilesOk(s) && FilesOk(Apply(s, e))
  {
    StepOk(s, e);
  }

  lemma SameBlob(s: State, t: State, key: string)
    requires FilesOk(s) && FilesOk(t) && Quiet(s, t)
    ensures (t.Has(key) <==> s.Has(key)) && (s.Has(key) ==> t.Contents(key) == s.Contents(key)) && t.published == s.published
  {
    assert Blob(key) in t.names <==> Blob(key) in s.names;
  }

  /** An installing step gives the call's key the whole body of the call, and touches no other blob. */
  lemma InstallGivesWholeBody(s: State, p: nat)
    requires Reachable(s) && Enabled(s, Publish(p)) && Installs(s, Publish(p))
    ensures var t, op := Apply(s, Publish(p)), s.procs[p].op;
            && s.procs[p].phase.ino in s.data && t.Has(op.key) && t.Contents(op.key) == s.data[s.procs[p].phase.ino] && t.Contents(op.key) in t.versions
            && (!op.Copy? ==> t.Contents(op.key) == Flatten(op.chunks))
            && forall n: Name | n.Blob? && n.key != op.key :: (n in t.names <==> n in s.names) && (n in s.names ==> t.names[n] == s.names[n])
  {
    ReachableOk(s);
    assert ProcOk(s, p);
    assert FilesOk(s);
    InstallNamesOnly(s, p);
  }

  lemma InstallNamesOnly(s: State, p: nat)
    requires Enabled(s, Publish(p)) && Installs(s, Publish(p))
    ensures var t, key, temp := ApplyPublish(s, p), s.procs[p].op.key, s.procs[p].op.TempName();
            && temp in s.names && t.data == s.data && t.versions == s.versions
            && Blob(key) in t.names && t.names[Blob(key)] == s.names[temp]
            && forall n: Name | n.Blob? && n.key != key :: (n in t.names <==> n in s.names) && (n in s.names ==> t.names[n] == s.names[n])
  {
  }

  /** What a finished copy is about to publish is the version its source had when it was opened. */
  lemma CopyIsWhole(s: State, p: nat)
    requires Reachable(s) && Enabled(s, FinishCopy(p))
    ensures var ph := s.procs[p].phase;
            ph.src in s.sealed && ph.src in s.data && ph.ino in s.data
            && s.data[ph.ino] == s.data[ph.src] && s.data[ph.src] in s.versions
  {
    ReachableOk(s);
    assert ProcOk(s, p);
    FinishCopyOk(s, p);
  }

  // ---- Sweeping under a live writer ----

  /** p's temporary file was swept before p published, or p has already failed. */
  predicate Doomed(s: State, p: nat) {
    p in s.procs
    && match s.procs[p].phase
       case Writing(_, _) => s.procs[p].op.TempName() !in s.names
       case Copying(_, _) => s.procs[p].op.TempName() !in s.names
       case Written(_) => s.procs[p].op.TempName() !in s.names
       case Cleaning(o) => o == Failed
       case Done(o) => o == Failed
       case _ => false
  }

  lemma SweepDooms(s: State, p: nat)
    requires p in s.procs && (s.procs[p].phase.Writing? || s.procs[p].phase.Copying? || s.procs[p].phase.Written?)
    ensures Doomed(Apply(s, Sweep(s.procs[p].op.TempName())), p)
  {
  }

  lemma OwnStepDoomed(s: State, p: nat, e: Event)
    requires Doomed(s, p) && Enabled(s, e) && CallStep(e) && e.p == p
    ensures Doomed(Apply(s, e), p) && !Installs(s, e)
  {
    if WritingStep(e) {
      WritingStepDoomed(s, p, e);
    } else {
      EndingStepDoomed(s, p, e);
    }
  }

  lemma WritingStepDoomed(s: State, p: nat, e: Event)
    requires Doomed(s, p) && Enabled(s, e) && WritingStep(e) && e.p == p
    ensures Doomed(Apply(s, e), p)
  {
  }

  lemma EndingStepDoomed(s: State, p: nat, e: Event)
    requires Doomed(s, p) && Enabled(s, e) && CallStep(e) && !WritingStep(e) && e.p == p
    ensures Doomed(Apply(s, e), p) && !Installs(s, e)
  {
  }

  /** e leaves the calls other than its own alone, and brings no temporary name but its own. */
  ghost predicate LeavesOthers(s: State, t: State, own: nat) {
    && own in s.procs && t.procs.Keys == s.procs.Keys && (forall q | q in s.procs && q != own :: t.procs[q] == s.procs[q])
    && (forall n: Name | n.Temp? && n != s.procs[own].op.TempName() :: n in t.names ==> n in s.names)
  }

  lemma WritingLeavesOthers(s: State, e: Event)
    requires Enabled(s, e) && WritingStep(e) && !e.Begin?
    ensures LeavesOthers(s, Apply(s, e), e.p)
  {
  }

  lemma EndingLeavesOthers(s: State, e: Event)
    requires Enabled(s, e) && CallStep(e) && !WritingStep(e)
    ensures LeavesOthers(s, Apply(s, e), e.p)
  {
    if e.Publish? {
      PublishLeavesOthers(s, e.p);
    }
  }

  lemma PublishLeavesOthers(s: State, p: nat)
    requires Enabled(s, Publish(p))
    ensures LeavesOthers(s, ApplyPublish(s, p), p)
  {
  }

  lemma OtherCallLeaves(s: State, p: nat, e: Event)
    requires PairsOk(s) && p in s.procs && Enabled(s, e) && CallStep(e) && e.p != p
    ensures var t := Apply(s, e);
            p in t.procs && t.procs[p] == s.procs[p]
            && (s.procs[p].op.TempName() in t.names ==> s.procs[p].op.TempName() in s.names)
  {
    if e.Begin? {
    } else if WritingStep(e) {
      WritingLeavesOthers(s, e);
    } else {
      EndingLeavesOthers(s, e);
    }
  }

  lemma OtherEventLeaves(s: State, p: nat, e: Event)
    requires p in s.procs && Enabled(s, e) && !CallStep(e)
    ensures var t := Apply(s, e);
            p in t.procs && t.procs[p] == s.procs[p]
            && (s.procs[p].op.TempName() in t.names ==> s.procs[p].op.TempName() in s.names)
  {
  }

  lemma OtherStepDoomed(s: State, p: nat, e: Event)
    requires PairsOk(s) && Doomed(s, p) && Enabled(s, e) && !(CallStep(e) && e.p == p)
    ensures Doomed(Apply(s, e), p)
  {
    if CallStep(e) {
      OtherCallLeaves(s, p, e);
    } else {
      OtherEventLeaves(s, p, e);
    }
  }

  /** A swept writer stays doomed whatever else runs, and none of its own steps changes a blob. */
  lemma {:induction false} DoomedForever(s: State, events: seq<Event>, t: State, p: nat)
    requires Inv(s) && Run(s, events, t) && Doomed(s, p)
    ensures Doomed(t, p) && (t.procs[p].phase.Done? ==> t.procs[p].phase.outcome == Failed)
    decreases |events|
  {
    if events != [] {
      var e := events[0];
      if CallStep(e) && e.p == p {
        OwnStepDoomed(s, p, e);
      } else {
        OtherStepDoomed(s, p, e);
      }
      StepOk(s, e);
      DoomedForever(Apply(s, e), events[1..], t, p);
    }
  }
}
