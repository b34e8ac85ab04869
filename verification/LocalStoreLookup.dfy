/** The separate look-up that goes with a stream: `get_blob` opens the file, and then asks for the size of what the key names. */
module LocalStoreLookup {
  import opened Wrappers
  import opened ByteStrings
  import opened LocalStore
  import opened LocalStoreInvariant
  import opened LocalStoreRuns
  import opened LocalStoreConditional
  import opened LocalStoreProgress

  // ---- No inode is published twice ----

  /** The call is about to publish the inode. */
  predicate Claims(s: State, p: nat, i: nat) {
    p in s.procs && s.procs[p].phase == Written(i)
  }

  /** No two calls are about to publish the same inode, and none one that a key already names. */
  ghost predicate Unpublished(s: State) {
    && (forall p, q, i | Claims(s, p, i) && Claims(s, q, i) :: p == q)
    && (forall key, p | Blob(key) in s.names :: !Claims(s, p, s.names[Blob(key)]))
  }

  /** The inode is finished, and no call is about to publish it. */
  ghost predicate Spent(s: State, i: nat) {
    i in s.sealed && forall p :: !Claims(s, p, i)
  }

  lemma WritingClaims(s: State, e: Event, p: nat, i: nat)
    requires Enabled(s, e) && WritingStep(e) && Claims(Apply(s, e), p, i)
    ensures Claims(s, p, i) || (e == FinishWrite(p) && p in s.procs && WriterOf(s.procs[p].phase, i))
  {
    if e.CreateTemp? {
      assert p in ApplyCreateTemp(s, e.p, e.ino).procs;
    }
  }

  /** Only finishing a copy brings a call to the point of publishing. */
  lemma EndingPhase(s: State, e: Event)
    requires Enabled(s, e) && CallStep(e) && !WritingStep(e)
    ensures e.p in s.procs && e.p in Apply(s, e).procs
    ensures Apply(s, e).procs[e.p].phase.Written? ==>
              e.FinishCopy? && s.procs[e.p].phase.Copying? && Apply(s, e).procs[e.p].phase.ino == s.procs[e.p].phase.ino
  {
    if e.Publish? {
      assert !ApplyPublish(s, e.p).procs[e.p].phase.Written?;
    }
  }

  lemma EndingClaims(s: State, e: Event, p: nat, i: nat)
    requires Enabled(s, e) && !WritingStep(e) && Claims(Apply(s, e), p, i)
    ensures Claims(s, p, i) || (e == FinishCopy(p) && p in s.procs && WriterOf(s.procs[p].phase, i))
    ensures e.Publish? ==> p != e.p
  {
    if CallStep(e) {
      EndingMoves(s, e);
      EndingPhase(s, e);
    }
  }

  /** A call comes to claim an inode only by finishing it. */
  lemma StepClaims(s: State, e: Event, p: nat, i: nat)
    requires Inv(s) && Enabled(s, e) && Claims(Apply(s, e), p, i)
    ensures Claims(s, p, i) || (i !in s.sealed && (e == FinishWrite(p) || e == FinishCopy(p)))
  {
    if WritingStep(e) {
      WritingClaims(s, e, p, i);
    } else {
      EndingClaims(s, e, p, i);
    }
    if p in s.procs && WriterOf(s.procs[p].phase, i) {
      WriterHasInode(s, p, i);
    }
  }

  lemma ClaimedIsSealed(s: State, p: nat, i: nat)
    requires Inv(s) && Claims(s, p, i)
    ensures i in s.sealed
  {
    assert ProcOk(s, p);
  }

  lemma StepClaimsApart(s: State, e: Event, p: nat, q: nat, i: nat)
    requires Inv(s) && Unpublished(s) && Enabled(s, e) && Claims(Apply(s, e), p, i) && Claims(Apply(s, e), q, i)
    ensures p == q
  {
    StepClaims(s, e, p, i);
    StepClaims(s, e, q, i);
    if Claims(s, p, i) {
      ClaimedIsSealed(s, p, i);
    }
    if Claims(s, q, i) {
      ClaimedIsSealed(s, q, i);
    }
  }

  lemma StepSpent(s: State, e: Event, i: nat)
    requires Inv(s) && Enabled(s, e) && Spent(s, i)
    ensures Spent(Apply(s, e), i)
  {
    StepKeepsSealed(s, e, i);
    forall p
      ensures !Claims(Apply(s, e), p, i)
    {
      if Claims(Apply(s, e), p, i) {
        StepClaims(s, e, p, i);
      }
    }
  }

  // ---- What a key names ----

  predicate Names(s: State, key: string, i: nat) {
    Blob(key) in s.names && s.names[Blob(key)] == i
  }

  /** A key comes to name an inode only by its publication. */
  lemma StepNames(s: State, e: Event, key: string, i: nat)
    requires Inv(s) && Enabled(s, e) && Names(Apply(s, e), key, i)
    ensures Names(s, key, i) || (Installs(s, e) && Claims(s, e.p, i) && s.procs[e.p].op.key == key)
  {
    if WritingStep(e) {
      WritingNames(s, e);
    } else if Installs(s, e) {
      InstallNames(s, e.p, key, i);
    } else if !e.Delete? {
      EndingNames(s, e);
    }
  }

  lemma InstallNames(s: State, p: nat, key: string, i: nat)
    requires Inv(s) && Enabled(s, Publish(p)) && Installs(s, Publish(p)) && Names(ApplyPublish(s, p), key, i)
    ensures if s.procs[p].op.key == key then Claims(s, p, i) else Names(s, key, i)
  {
    assert ProcOk(s, p);
  }

  /** An installed inode is claimed by nobody afterwards. */
  lemma InstalledIsSpent(s: State, p: nat, i: nat, q: nat)
    requires Inv(s) && Unpublished(s) && Enabled(s, Publish(p)) && Installs(s, Publish(p)) && Claims(s, p, i)
    ensures !Claims(Apply(s, Publish(p)), q, i)
  {
    if Claims(Apply(s, Publish(p)), q, i) {
      EndingClaims(s, Publish(p), q, i);
    }
  }

  lemma StepNamedUnclaimed(s: State, e: Event, key: string, p: nat, i: nat)
    requires Inv(s) && Unpublished(s) && Enabled(s, e) && Names(Apply(s, e), key, i)
    ensures !Claims(Apply(s, e), p, i)
  {
    StepNames(s, e, key, i);
    if Claims(Apply(s, e), p, i) {
      StepClaims(s, e, p, i);
    }
    if Names(s, key, i) {
      assert !Claims(s, p, i);
      assert i in s.sealed;
    } else {
      InstalledIsSpent(s, e.p, i, p);
    }
  }

  lemma StepUnpublished(s: State, e: Event)
    requires Inv(s) && Unpublished(s) && Enabled(s, e)
    ensures Unpublished(Apply(s, e))
  {
    var t := Apply(s, e);
    forall p, q, i | Claims(t, p, i) && Claims(t, q, i)
      ensures p == q
    {
      StepClaimsApart(s, e, p, q, i);
    }
    forall key, p | Blob(key) in t.names
      ensures !Claims(t, p, t.names[Blob(key)])
    {
      StepNamedUnclaimed(s, e, key, p, t.names[Blob(key)]);
    }
  }

  lemma {:induction false} RunUnpublished(s: State, events: seq<Event>, t: State)
    requires Inv(s) && Unpublished(s) && Run(s, events, t)
    ensures Unpublished(t)
    decreases |events|
  {
    if events != [] {
      StepUnpublished(s, events[0]);
      StepOk(s, events[0]);
      RunUnpublished(Apply(s, events[0]), events[1..], t);
    }
  }

  lemma ReachableUnpublished(t: State)
    requires Reachable(t)
    ensures Unpublished(t)
  {
    var s, events :| Init(s) && Run(s, events, t);
    InitOk(s);
    RunUnpublished(s, events, t);
  }

  // ---- Displacing an entry ----

  /** The step deletes the key, or publishes something under it. */
  predicate Displaces(s: State, e: Event, key: string)
    requires Enabled(s, e)
  {
    e == Delete(key) || (Installs(s, e) && s.procs[e.p].op.key == key)
  }

  /** Some step of the run does. */
  ghost predicate Displaced(s: State, events: seq<Event>, key: string)
    decreases |events|
  {
    && events != [] && Enabled(s, events[0])
    && (Displaces(s, events[0], key) || Displaced(Apply(s, events[0]), events[1..], key))
  }

  lemma StepKeepsName(s: State, e: Event, key: string, i: nat)
    requires Enabled(s, e) && !Displaces(s, e, key) && Names(s, key, i)
    ensures Names(Apply(s, e), key, i)
  {
    if WritingStep(e) {
      WritingNames(s, e);
    } else if Installs(s, e) {
      assert Names(ApplyPublish(s, e.p), key, i);
    } else if !e.Delete? {
      EndingNames(s, e);
    }
  }

  /** A displaced inode is no longer named, and one that is not named does not come back. */
  lemma StepElsewhere(s: State, e: Event, key: string, i: nat)
    requires Inv(s) && Spent(s, i) && Enabled(s, e) && (Displaces(s, e, key) || !Names(s, key, i))
    ensures !Names(Apply(s, e), key, i)
  {
    if Names(Apply(s, e), key, i) {
      StepNames(s, e, key, i);
      if Installs(s, e) && s.procs[e.p].op.key == key {
        InstallNames(s, e.p, key, i);
      }
    }
  }

  lemma {:induction false} RunElsewhere(s: State, events: seq<Event>, t: State, key: string, i: nat)
    requires Inv(s) && Spent(s, i) && Run(s, events, t) && !Names(s, key, i)
    ensures !Names(t, key, i)
    decreases |events|
  {
    if events != [] {
      var e := events[0];
      StepElsewhere(s, e, key, i);
      StepSpent(s, e, i);
      StepOk(s, e);
      RunElsewhere(Apply(s, e), events[1..], t, key, i);
    }
  }

  lemma {:induction false} RunNamesIff(s: State, events: seq<Event>, t: State, key: string, i: nat)
    requires Inv(s) && Spent(s, i) && Run(s, events, t) && Names(s, key, i)
    ensures Names(t, key, i) <==> !Displaced(s, events, key)
    decreases |events|
  {
    if events != [] {
      var e := events[0];
      StepSpent(s, e, i);
      StepOk(s, e);
      if Displaces(s, e, key) {
        StepElsewhere(s, e, key, i);
        RunElsewhere(Apply(s, e), events[1..], t, key, i);
      } else {
        StepKeepsName(s, e, key, i);
        RunNamesIff(Apply(s, e), events[1..], t, key, i);
      }
    }
  }

  /** Over any run a key goes on naming its inode if and only if the key is neither deleted nor published in it. */
  lemma EntryStandsIff(s: State, events: seq<Event>, t: State, key: string)
    requires Reachable(s) && Run(s, events, t) && Blob(key) in s.names
    ensures Names(t, key, s.names[Blob(key)]) <==> !Displaced(s, events, key)
  {
    ReachableOk(s);
    ReachableUnpublished(s);
    assert Spent(s, s.names[Blob(key)]);
    RunNamesIff(s, events, t, key, s.names[Blob(key)]);
  }

  // ---- The look-up ----

  /** `head_blob`: the size of the file the key names at that moment. */
  function Head(s: State, key: string): Option<nat> {
    if s.Has(key) then Some(|s.Contents(key)|) else None
  }

  /**
    The look-up that follows the opening of a stream finds the file that is streamed, and so reports its size, if and
    only if the key is neither deleted nor published in between. Otherwise it finds another file, or none.
   */
  lemma LookupFindsStreamIff(s: State, r: nat, key: string, events: seq<Event>, u: State)
    requires Reachable(s) && Enabled(s, OpenReader(r, key)) && Run(Apply(s, OpenReader(r, key)), events, u)
    ensures r in u.readers && s.Has(key)
    ensures Names(u, key, u.readers[r].ino) <==> !Displaced(Apply(s, OpenReader(r, key)), events, key)
    ensures !Displaced(Apply(s, OpenReader(r, key)), events, key) ==> Head(u, key) == Some(|s.Contents(key)|)
    ensures Head(u, key) == None <==> Blob(key) !in u.names
  {
    var after := Apply(s, OpenReader(r, key));
    BlobsAreWhole(s, key);
    OneStep(s, OpenReader(r, key));
    ReachableOk(s);
    ReachableOk(after);
    RunKeepsReader(after, events, u, r);
    EntryStandsIff(after, events, u, key);
    SealedForever(after, events, u, s.names[Blob(key)]);
    RunOk(after, events, u);
  }

  // ---- A look-up that finds another version ----

  /** Two writes begun, and nothing else done. */
  lemma TwoPutsBegun(a: Op, b: Op) returns (s: State)
    requires a.Put? && b.Put? && a.id != b.id
    ensures Reachable(s) && s.procs == map[0 := Proc(a, Opening), 1 := Proc(b, Opening)] && s.readers == map[]
  {
    var s0 := EmptyStore();
    OneStep(s0, Begin(0, a));
    var s1 := Apply(s0, Begin(0, a));
    OneStep(s1, Begin(1, b));
    s := Apply(s1, Begin(1, b));
  }

  /** The first write has completed, the second is still to start. */
  lemma FirstStored(a: Op, b: Op) returns (s: State)
    requires a.Put? && b.Put? && !a.broken && a.id != b.id
    ensures Reachable(s) && 1 in s.procs && s.procs[1] == Proc(b, Opening)
    ensures Blob(a.key) in s.names && s.Has(a.key) && s.Contents(a.key) == Flatten(a.chunks)
  {
    var s0 := TwoPutsBegun(a, b);
    s := WriterCanFinish(s0, 0);
  }

  /** Opening a stream changes neither files nor calls. */
  lemma StreamOpened(s: State, key: string) returns (v: State, r: nat)
    requires Reachable(s) && Blob(key) in s.names
    ensures Enabled(s, OpenReader(r, key)) && v == Apply(s, OpenReader(r, key)) && Reachable(v) && v.procs == s.procs
  {
    r := Beyond(s.readers.Keys);
    assert r !in s.readers.Keys;
    OneStep(s, OpenReader(r, key));
    v := Apply(s, OpenReader(r, key));
  }

  lemma SecondStored(v: State, b: Op) returns (u: State)
    requires Reachable(v) && 1 in v.procs && v.procs[1] == Proc(b, Opening) && b.Put? && !b.broken
    ensures Leads(v, u) && Head(u, b.key) == Some(|Flatten(b.chunks)|)
  {
    u := WriterCanFinish(v, 1);
  }

  lemma NothingAfterDeletion(v: State, key: string)
    ensures Head(Apply(v, Delete(key)), key) == None
  {
  }

  /**
    For any two bodies there is a run in which a stream on the first is opened, and the look-up then reports the size
    of the second: that is the size of what is streamed exactly if both have one length. After a deletion it finds nothing.
   */
  lemma LookupCanDiffer(a: Op, b: Op) returns (s: State, r: nat, u: State)
    requires a.Put? && b.Put? && !a.broken && !b.broken && a.key == b.key && a.id != b.id
    ensures Reachable(s) && s.Has(a.key) && s.Contents(a.key) == Flatten(a.chunks) && Enabled(s, OpenReader(r, a.key))
    ensures Leads(Apply(s, OpenReader(r, a.key)), u) && Head(u, a.key) == Some(|Flatten(b.chunks)|)
    ensures Head(u, a.key) == Some(|s.Contents(a.key)|) <==> |Flatten(a.chunks)| == |Flatten(b.chunks)|
    ensures Head(Apply(Apply(s, OpenReader(r, a.key)), Delete(a.key)), a.key) == None
  {
    s := FirstStored(a, b);
    var v;
    v, r := StreamOpened(s, a.key);
    u := SecondStored(v, b);
    NothingAfterDeletion(v, a.key);
  }
}
