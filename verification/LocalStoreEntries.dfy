/** What runs of the local store keep of calls and entries. */
module LocalStoreEntries {
  import opened LocalStore
  import opened LocalStoreRuns
  import opened LocalStoreConditional

  // ---- What every run keeps ----

  /** Calls stay, with the operation they were begun with. */
  lemma {:induction false} RunKeepsOps(s: State, events: seq<Event>, t: State, p: nat)
    requires Run(s, events, t) && p in s.procs
    ensures p in t.procs && t.procs[p].op == s.procs[p].op
    decreases |events|
  {
    if events != [] {
      StepKeepsOps(s, events[0], p);
      RunKeepsOps(Apply(s, events[0]), events[1..], t, p);
    }
  }

  lemma StepKeepsOps(s: State, e: Event, p: nat)
    requires Enabled(s, e) && p in s.procs
    ensures p in Apply(s, e).procs && Apply(s, e).procs[p].op == s.procs[p].op
    ensures (CallStep(e) && e.p == p) || Apply(s, e).procs[p] == s.procs[p]
  {
    if WritingStep(e) {
      WritingKeepsOps(s, e, p);
    } else {
      EndingKeepsOps(s, e, p);
    }
  }

  /** p is there in t as in s, but for its phase if the step was its own. */
  predicate KeepsOp(s: State, t: State, p: nat, own: bool)
    requires p in s.procs
  {
    p in t.procs && t.procs[p].op == s.procs[p].op && (own || t.procs[p] == s.procs[p])
  }

  lemma WritingKeepsOps(s: State, e: Event, p: nat)
    requires Enabled(s, e) && WritingStep(e) && p in s.procs
    ensures KeepsOp(s, Apply(s, e), p, e.p == p)
  {
    if e.CreateTemp? {
      assert KeepsOp(s, ApplyCreateTemp(s, e.p, e.ino), p, e.p == p);
    }
  }

  lemma MovedKeepsOps(s: State, t: State, own: nat, phase: Phase, p: nat)
    requires own in s.procs && p in s.procs && t.procs == s.procs[own := s.procs[own].(phase := phase)]
    ensures KeepsOp(s, t, p, own == p)
  {
  }

  lemma EndingKeepsOps(s: State, e: Event, p: nat)
    requires Enabled(s, e) && !WritingStep(e) && p in s.procs
    ensures KeepsOp(s, Apply(s, e), p, CallStep(e) && e.p == p)
  {
    if CallStep(e) {
      EndingMoves(s, e);
      MovedKeepsOps(s, Apply(s, e), e.p, Apply(s, e).procs[e.p].phase, p);
    }
  }

  lemma {:induction false} RunSplit(s: State, events: seq<Event>, t: State, i: nat) returns (u: State)
    requires Run(s, events, t) && i < |events|
    ensures Run(s, events[..i], u) && Enabled(u, events[i]) && Run(Apply(u, events[i]), events[i + 1..], t)
    decreases i
  {
    if i == 0 {
      u := s;
    } else {
      u := RunSplit(Apply(s, events[0]), events[1..], t, i - 1);
      assert events[1..][..i - 1] == events[..i][1..] && events[1..][i - 1 + 1..] == events[i + 1..];
    }
  }

  /** The same entry, or none, under the key. */
  predicate SameEntry(s: State, t: State, key: string) {
    && (Blob(key) in t.names <==> Blob(key) in s.names)
    && (Blob(key) in s.names ==> t.names[Blob(key)] == s.names[Blob(key)])
  }

  /** Which events can change what a key leads to. */
  lemma StepKeepsEntry(s: State, e: Event, key: string)
    requires Enabled(s, e) && e != Delete(key) && !(e.Publish? && s.procs[e.p].op.key == key)
    ensures SameEntry(s, Apply(s, e), key)
  {
    if WritingStep(e) {
      WritingNames(s, e);
    } else if e.CleanUp? {
      CleanUpNames(s, e.p, e.removed);
    } else if e.Publish? {
      assert SameEntry(s, ApplyPublish(s, e.p), key);
    }
  }

  /** The event publishes under the key; the operation is looked up where the run has got to. */
  predicate Publishes(e: Event, t: State, key: string) {
    e.Publish? && e.p in t.procs && t.procs[e.p].op.key == key
  }

  /** An entry stays as it is over any run that neither deletes nor publishes under its key. */
  lemma {:induction false} EntryKept(s: State, events: seq<Event>, t: State, key: string)
    requires Run(s, events, t)
    requires forall i | 0 <= i < |events| :: events[i] != Delete(key) && !Publishes(events[i], t, key)
    ensures SameEntry(s, t, key)
    decreases |events|
  {
    if events != [] {
      var e := events[0];
      assert e != Delete(key) && !Publishes(e, t, key);
      if e.Publish? {
        RunKeepsOps(s, events, t, e.p);
      }
      StepKeepsEntry(s, e, key);
      assert forall i | 0 <= i < |events| - 1 :: events[1..][i] == events[i + 1];
      EntryKept(Apply(s, e), events[1..], t, key);
    }
  }

  /** An entry that is there goes away by deletion only. */
  lemma EntryStays(s: State, e: Event, key: string)
    requires Enabled(s, e) && e != Delete(key) && Blob(key) in s.names
    ensures Blob(key) in Apply(s, e).names
  {
    if e.Publish? {
      assert Blob(key) in ApplyPublish(s, e.p).names;
    } else {
      StepKeepsEntry(s, e, key);
    }
  }
}
