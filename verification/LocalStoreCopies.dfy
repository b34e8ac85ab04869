/** What a copy publishes: the version its source had at the moment it was opened. */
module LocalStoreCopies {
  import opened ByteStrings
  import opened LocalStore
  import opened LocalStoreInvariant
  import opened LocalStoreRuns
  import opened LocalStoreConditional
  import opened LocalStoreTheorems
  import opened LocalStoreEntries
  import opened LocalStoreProgress
  import opened LocalStoreDefault

  /** A copy that opens its source gets the version then under `from`; it fails there exactly if `from` is absent. */
  lemma OpenSourceIff(s: State, p: nat)
    requires Reachable(s) && Enabled(s, OpenSource(p))
    ensures var t, from := Apply(s, OpenSource(p)), s.procs[p].op.from;
            && p in t.procs && (t.procs[p].phase == Cleaning(Failed) <==> !s.Has(from))
            && (s.Has(from) ==> t.procs[p].phase.SourceOpen? && CopyOf(t, p, s.Contents(from)))
  {
    ReachableOk(s);
    assert ProcOk(s, p);
  }

  /** The finished inode holds these bytes. */
  ghost predicate Holds(s: State, i: nat, body: Bytes) {
    i in s.sealed && i in s.data && s.data[i] == body
  }

  /** p is a copy that has its source open on this body, or has written it all, or has published it, or has not succeeded. */
  ghost predicate CopyOf(s: State, p: nat, body: Bytes) {
    && p in s.procs && s.procs[p].op.Copy?
    && match s.procs[p].phase
       case SourceOpen(src) => Holds(s, src, body)
       case Copying(_, src) => Holds(s, src, body)
       case Written(ino) => Holds(s, ino, body)
       case Cleaning(outcome) => outcome == Stored ==> p in s.published && Holds(s, s.published[p].ino, body)
       case Done(outcome) => outcome == Stored ==> p in s.published && Holds(s, s.published[p].ino, body)
       case _ => false
  }

  lemma StepKeepsHolds(s: State, e: Event, i: nat, body: Bytes)
    requires Inv(s) && Enabled(s, e) && Holds(s, i, body)
    ensures Holds(Apply(s, e), i, body)
  {
    StepKeepsSealed(s, e, i);
  }

  lemma StepKeepsPublished(s: State, e: Event, p: nat)
    requires Enabled(s, e) && e != Publish(p) && p in s.published
    ensures p in Apply(s, e).published && Apply(s, e).published[p] == s.published[p]
  {
    if WritingStep(e) {
      WritingNames(s, e);
    } else if e.Publish? {
      assert p in ApplyPublish(s, e.p).published && ApplyPublish(s, e.p).published[p] == s.published[p];
    } else if !e.Delete? {
      EndingNames(s, e);
    }
  }

  /** The inode whose contents make p a copy of the body. */
  function Carrier(s: State, p: nat): nat
    requires p in s.procs
  {
    match s.procs[p].phase
    case SourceOpen(src) => src
    case Copying(_, src) => src
    case Written(ino) => ino
    case _ => if p in s.published then s.published[p].ino else 0
  }

  lemma OtherStepKeepsCopy(s: State, e: Event, p: nat, body: Bytes)
    requires Inv(s) && Enabled(s, e) && CopyOf(s, p, body) && !(CallStep(e) && e.p == p)
    ensures CopyOf(Apply(s, e), p, body)
  {
    StepKeepsOps(s, e, p);
    if Holds(s, Carrier(s, p), body) {
      StepKeepsHolds(s, e, Carrier(s, p), body);
    }
    if p in s.published {
      StepKeepsPublished(s, e, p);
    }
  }

  /** While it has its source open, a copy goes on reading that one. */
  lemma CopyingStep(s: State, e: Event)
    requires Enabled(s, e) && (e.CreateTemp? || e.CopyChunk?) && s.procs[e.p].op.Copy?
    ensures e.p in Apply(s, e).procs && Apply(s, e).procs[e.p].op == s.procs[e.p].op
    ensures Apply(s, e).procs[e.p].phase.Copying? && Apply(s, e).procs[e.p].phase.src == Carrier(s, e.p)
  {
    if e.CreateTemp? {
      assert ApplyCreateTemp(s, e.p, e.ino).procs[e.p].phase.Copying?;
    }
  }

  lemma FinishStep(s: State, p: nat, body: Bytes)
    requires Inv(s) && Enabled(s, FinishCopy(p)) && CopyOf(s, p, body)
    ensures CopyOf(Apply(s, FinishCopy(p)), p, body)
  {
    assert ProcOk(s, p);
    FinishCopyOk(s, p);
  }

  lemma PublishStep(s: State, p: nat, body: Bytes)
    requires Inv(s) && Enabled(s, Publish(p)) && CopyOf(s, p, body)
    ensures CopyOf(ApplyPublish(s, p), p, body)
  {
    assert TempLeads(s, s.procs[p].op, s.procs[p].phase.ino) by {
      assert ProcOk(s, p);
    }
    if s.procs[p].op.TempName() in s.names {
      InstalledInode(s, p);
    }
  }

  /** A copy that finds its temporary name publishes the inode it has written. */
  lemma InstalledInode(s: State, p: nat)
    requires Enabled(s, Publish(p)) && s.procs[p].op.Copy? && s.procs[p].op.TempName() in s.names
    requires TempLeads(s, s.procs[p].op, s.procs[p].phase.ino)
    ensures var t := ApplyPublish(s, p);
            && p in t.procs && t.procs[p].op == s.procs[p].op && t.procs[p].phase == Done(Stored)
            && p in t.published && t.published[p].ino == s.procs[p].phase.ino && t.data == s.data && t.sealed == s.sealed
  {
  }

  lemma EndStep(s: State, e: Event, body: Bytes)
    requires Inv(s) && Enabled(s, e) && (e.Fail? || e.CleanUp?) && CopyOf(s, e.p, body)
    ensures CopyOf(Apply(s, e), e.p, body)
  {
    if e.CleanUp? && s.procs[e.p].phase.outcome == Stored {
      StepKeepsHolds(s, e, s.published[e.p].ino, body);
    }
  }

  lemma OwnStepKeepsCopy(s: State, e: Event, p: nat, body: Bytes)
    requires Inv(s) && Enabled(s, e) && CopyOf(s, p, body) && CallStep(e) && e.p == p
    ensures CopyOf(Apply(s, e), p, body)
  {
    if e.CreateTemp? || e.CopyChunk? {
      CopyingStep(s, e);
      StepKeepsHolds(s, e, Carrier(s, p), body);
    } else if e.FinishCopy? {
      FinishStep(s, p, body);
    } else if e.Publish? {
      PublishStep(s, p, body);
    } else {
      EndStep(s, e, body);
    }
  }

  lemma StepKeepsCopy(s: State, e: Event, p: nat, body: Bytes)
    requires Inv(s) && Enabled(s, e) && CopyOf(s, p, body)
    ensures CopyOf(Apply(s, e), p, body)
  {
    if CallStep(e) && e.p == p {
      OwnStepKeepsCopy(s, e, p, body);
    } else {
      OtherStepKeepsCopy(s, e, p, body);
    }
  }

  lemma {:induction false} RunKeepsCopy(s: State, events: seq<Event>, t: State, p: nat, body: Bytes)
    requires Inv(s) && Run(s, events, t) && CopyOf(s, p, body)
    ensures CopyOf(t, p, body)
    decreases |events|
  {
    if events != [] {
      StepKeepsCopy(s, events[0], p, body);
      StepOk(s, events[0]);
      RunKeepsCopy(Apply(s, events[0]), events[1..], t, p, body);
    }
  }

  /** Run by u to the i-th event, at which p opens its source. */
  ghost predicate OpensAt(s: State, events: seq<Event>, t: State, p: nat, i: nat, u: State) {
    && i < |events| && events[i] == OpenSource(p) && Run(s, events[..i], u) && Enabled(u, OpenSource(p))
    && Run(Apply(u, OpenSource(p)), events[i + 1..], t)
  }

  lemma OpensAtLater(s: State, events: seq<Event>, t: State, p: nat, k: nat, u: State)
    requires events != [] && Enabled(s, events[0]) && OpensAt(Apply(s, events[0]), events[1..], t, p, k, u)
    ensures OpensAt(s, events, t, p, k + 1, u)
  {
    ShiftedPrefix(events, k);
  }

  /** A copy that waits to open its source does only that, or fails. */
  lemma OpeningStep(s: State, e: Event, p: nat)
    requires Enabled(s, e) && p in s.procs && s.procs[p].op.Copy? && s.procs[p].phase.Opening? && e != OpenSource(p)
    ensures p in Apply(s, e).procs && Apply(s, e).procs[p].op == s.procs[p].op
    ensures Apply(s, e).procs[p].phase in {Opening, Cleaning(Failed)}
  {
    StepKeepsOps(s, e, p);
    if CallStep(e) && e.p == p {
      assert e.Fail?;
    }
  }

  /** Where a copy that succeeded opened its source. */
  lemma {:induction false} FindOpening(s: State, events: seq<Event>, t: State, p: nat) returns (i: nat, u: State)
    requires Run(s, events, t) && p in s.procs && s.procs[p].op.Copy? && s.procs[p].phase.Opening?
    requires p in t.procs && HasStored(t.procs[p].phase)
    ensures OpensAt(s, events, t, p, i, u) && p in u.procs && u.procs[p].op == s.procs[p].op
    decreases |events|
  {
    var e := events[0];
    if e == OpenSource(p) {
      i, u := 0, s;
    } else {
      OpeningStep(s, e, p);
      if HasFailed(Apply(s, e).procs[p].phase) {
        FailedStays(Apply(s, e), events[1..], t, p);
      }
      i, u := FindOpening(Apply(s, e), events[1..], t, p);
      OpensAtLater(s, events, t, p, i, u);
      i := i + 1;
    }
  }

  /**
    A copy that has published has passed, in its run, a moment at which its source was there, and what it published
    is the body its source had at that moment.
   */
  lemma CopyPublishesSource(s: State, events: seq<Event>, t: State, p: nat) returns (i: nat, u: State)
    requires Reachable(s) && Run(s, events, t) && p in s.procs && s.procs[p].op.Copy? && s.procs[p].phase.Opening?
    requires p in t.procs && HasStored(t.procs[p].phase)
    ensures i < |events| && events[i] == OpenSource(p) && Run(s, events[..i], u) && u.Has(s.procs[p].op.from)
    ensures p in t.published && t.published[p].ino in t.data
    ensures t.data[t.published[p].ino] == u.Contents(s.procs[p].op.from)
  {
    i, u := FindOpening(s, events, t, p);
    ReachableOk(s);
    RunOk(s, events[..i], u);
    OpenedCopy(u, events[i + 1..], t, p);
  }

  lemma OpenedCopy(u: State, rest: seq<Event>, t: State, p: nat)
    requires Inv(u) && Enabled(u, OpenSource(p)) && Run(Apply(u, OpenSource(p)), rest, t)
    requires p in t.procs && HasStored(t.procs[p].phase)
    ensures u.Has(u.procs[p].op.from) && CopyOf(t, p, u.Contents(u.procs[p].op.from))
  {
    var v, from := Apply(u, OpenSource(p)), u.procs[p].op.from;
    assert ProcOk(u, p);
    if Blob(from) in u.names {
      StepOk(u, OpenSource(p));
      RunKeepsCopy(v, rest, t, p, u.Contents(from));
    } else {
      FailedStays(v, rest, t, p);
    }
  }

  // ---- A copy left to itself ----

  /** p's copy is further on, and of the same body. */
  ghost predicate CopiedOn(s: State, t: State, p: nat, phase: Phase, body: Bytes) {
    Further(s, t, p, phase) && CopyOf(t, p, body)
  }

  lemma CopiedOnOn(s: State, t: State, u: State, p: nat, middle: Phase, last: Phase, body: Bytes)
    requires CopiedOn(s, t, p, middle, body) && CopiedOn(t, u, p, last, body)
    ensures CopiedOn(s, u, p, last, body)
  {
    FurtherOn(s, t, u, p, middle, last);
  }

  lemma CopyStep(s: State, e: Event, p: nat, phase: Phase, body: Bytes)
    requires Reachable(s) && Enabled(s, e) && CopyOf(s, p, body) && p in Apply(s, e).procs
    requires Apply(s, e).procs == s.procs[p := s.procs[p].(phase := phase)] && Apply(s, e).epochs == s.epochs
    ensures CopiedOn(s, Apply(s, e), p, phase, body)
  {
    ReachableOk(s);
    OneStep(s, e);
    StepKeepsCopy(s, e, p, body);
  }

  lemma SourceOpened(s: State, p: nat) returns (t: State, src: nat)
    requires Reachable(s) && p in s.procs && s.procs[p].op.Copy? && s.procs[p].phase.Opening? && s.Has(s.procs[p].op.from)
    ensures CopiedOn(s, t, p, SourceOpen(src), s.Contents(s.procs[p].op.from))
  {
    OpenSourceIff(s, p);
    OneStep(s, OpenSource(p));
    t := Apply(s, OpenSource(p));
    src := t.procs[p].phase.src;
  }

  lemma CopyBegun(s: State, p: nat, src: nat, body: Bytes) returns (t: State, ino: nat)
    requires Reachable(s) && CopyOf(s, p, body) && s.procs[p].phase == SourceOpen(src)
    ensures CopiedOn(s, t, p, Copying(ino, src), body) && s.procs[p].op.TempName() in t.names
    ensures ino in t.data && t.data[ino] == []
  {
    var unused := FreshInode(s);
    t := ApplyCreateTemp(s, p, unused);
    ino := t.procs[p].phase.ino;
    CopyStep(s, CreateTemp(p, unused), p, Copying(ino, src), body);
  }

  lemma CopyFilled(s: State, p: nat, ino: nat, src: nat, body: Bytes) returns (t: State)
    requires Reachable(s) && CopyOf(s, p, body) && s.procs[p].phase == Copying(ino, src) && ino in s.data && s.data[ino] == []
    ensures CopiedOn(s, t, p, Copying(ino, src), body) && t.names == s.names && ino in t.data && |t.data[ino]| >= |body|
  {
    if body == [] {
      t := s;
      NoStep(s);
      assert s.procs == s.procs[p := s.procs[p].(phase := Copying(ino, src))];
    } else {
      t := Apply(s, CopyChunk(p, |body|));
      CopyStep(s, CopyChunk(p, |body|), p, Copying(ino, src), body);
    }
  }

  lemma CopyWritten(s: State, p: nat, ino: nat, src: nat, body: Bytes) returns (t: State)
    requires Reachable(s) && CopyOf(s, p, body) && s.procs[p].phase == Copying(ino, src) && ino in s.data && |s.data[ino]| >= |body|
    ensures CopiedOn(s, t, p, Written(ino), body) && t.names == s.names
  {
    t := Apply(s, FinishCopy(p));
    CopyStep(s, FinishCopy(p), p, Written(ino), body);
  }

  lemma CopyInstalled(s: State, p: nat, ino: nat, body: Bytes) returns (t: State)
    requires Reachable(s) && CopyOf(s, p, body) && s.procs[p].phase == Written(ino) && s.procs[p].op.TempName() in s.names
    ensures CopiedOn(s, t, p, Done(Stored), body) && t.Has(s.procs[p].op.key) && t.Contents(s.procs[p].op.key) == body
  {
    InstallGivesWholeBody(s, p);
    t := ApplyPublish(s, p);
    CopyStep(s, Publish(p), p, Done(Stored), body);
  }

  /** A copy left to itself, of a source that is there, gives its key the source's body. */
  lemma CopyCanFinish(s: State, p: nat) returns (t: State)
    requires Reachable(s) && p in s.procs && s.procs[p].op.Copy? && s.procs[p].phase.Opening? && s.Has(s.procs[p].op.from)
    ensures Further(s, t, p, Done(Stored))
    ensures t.Has(s.procs[p].op.key) && t.Contents(s.procs[p].op.key) == s.Contents(s.procs[p].op.from)
  {
    var body := s.Contents(s.procs[p].op.from);
    var s1, src := SourceOpened(s, p);
    var s2, ino := CopyBegun(s1, p, src, body);
    CopiedOnOn(s, s1, s2, p, SourceOpen(src), Copying(ino, src), body);
    var s3 := CopyFilled(s2, p, ino, src, body);
    CopiedOnOn(s, s2, s3, p, Copying(ino, src), Copying(ino, src), body);
    var s4 := CopyWritten(s3, p, ino, src, body);
    CopiedOnOn(s, s3, s4, p, Copying(ino, src), Written(ino), body);
    t := CopyInstalled(s4, p, ino, body);
    CopiedOnOn(s, s4, t, p, Written(ino), Done(Stored), body);
  }
}
