/** Runs put together, and writers of the local store that are left to themselves. */
module LocalStoreProgress {
  import opened ByteStrings
  import opened LocalStore
  import opened LocalStoreInvariant
  import opened LocalStoreRuns
  import opened LocalStoreTheorems
  import opened Sequences

  lemma {:induction false} RunConcat(s: State, a: seq<Event>, t: State, b: seq<Event>, u: State)
    requires Run(s, a, t) && Run(t, b, u)
    ensures Run(s, a + b, u)
    decreases |a|
  {
    if a == [] {
      assert a + b == b;
    } else {
      RunConcat(Apply(s, a[0]), a[1..], t, b, u);
      ConcatHead(a, b);
    }
  }

  /** Some run goes from s to t. */
  ghost predicate Leads(s: State, t: State) {
    exists events :: Run(s, events, t)
  }

  lemma LeadsOn(s: State, t: State, u: State)
    requires Leads(s, t) && Leads(t, u)
    ensures Leads(s, u)
  {
    var a :| Run(s, a, t);
    var b :| Run(t, b, u);
    RunConcat(s, a, t, b, u);
  }

  /** A reachable state and one that it leads to. */
  ghost predicate Onward(s: State, t: State) {
    Reachable(s) && Leads(s, t) && Reachable(t)
  }

  lemma ReachableOn(s: State, t: State)
    requires Reachable(s) && Leads(s, t)
    ensures Onward(s, t)
  {
    var s0, events :| Init(s0) && Run(s0, events, s);
    LeadsOn(s0, s, t);
  }

  lemma OneStep(s: State, e: Event)
    requires Reachable(s) && Enabled(s, e)
    ensures Onward(s, Apply(s, e))
  {
    assert [e][1..] == [];
    assert Run(s, [e], Apply(s, e));
    ReachableOn(s, Apply(s, e));
  }

  lemma NoStep(s: State)
    requires Reachable(s)
    ensures Onward(s, s)
  {
    assert Run(s, [], s);
  }

  lemma OnwardOn(s: State, t: State, u: State)
    requires Onward(s, t) && Onward(t, u)
    ensures Onward(s, u)
  {
    LeadsOn(s, t, u);
  }

  lemma EmptyStore() returns (s: State)
    ensures Reachable(s) && s == State(map[], map[], map[], map[], {}, {}, map[], {}, map[])
  {
    s := State(map[], map[], map[], map[], {}, {}, map[], {}, map[]);
    assert Init(s) && Run(s, [], s);
  }

  lemma FreshInode(s: State) returns (ino: nat)
    ensures ino !in s.data
  {
    ino := Beyond(s.data.Keys);
    assert ino !in s.data.Keys;
  }

  lemma Beyond(used: set<nat>) returns (n: nat)
    ensures forall i | i in used :: i < n
  {
    if used == {} {
      n := 0;
    } else {
      var i :| i in used;
      var m := Beyond(used - {i});
      n := if i < m then m else i + 1;
      assert forall j | j in used :: j == i || j in used - {i};
    }
  }

  /** t is reached from s with p's call further on, and nothing deleted. */
  ghost predicate Further(s: State, t: State, p: nat, phase: Phase) {
    Onward(s, t) && p in s.procs && t.procs == s.procs[p := s.procs[p].(phase := phase)] && t.epochs == s.epochs
  }

  lemma FurtherOn(s: State, t: State, u: State, p: nat, middle: Phase, last: Phase)
    requires Further(s, t, p, middle) && Further(t, u, p, last)
    ensures Further(s, u, p, last)
  {
    OnwardOn(s, t, u);
    assert s.procs[p := t.procs[p]][p := u.procs[p]] == s.procs[p := u.procs[p]];
  }

  lemma TempCreated(s: State, p: nat) returns (t: State, ino: nat)
    requires Reachable(s) && p in s.procs && s.procs[p].phase.Opening? && !s.procs[p].op.Copy?
    ensures Further(s, t, p, Writing(ino, s.procs[p].op.chunks)) && s.procs[p].op.TempName() in t.names
    ensures forall key :: (Blob(key) in t.names <==> Blob(key) in s.names) && (Blob(key) in s.names ==> t.names[Blob(key)] == s.names[Blob(key)])
  {
    var unused := FreshInode(s);
    OneStep(s, CreateTemp(p, unused));
    t := Apply(s, CreateTemp(p, unused));
    ino := t.procs[p].phase.ino;
  }

  lemma ChunkWritten(s: State, p: nat) returns (t: State)
    requires Reachable(s) && p in s.procs && s.procs[p].phase.Writing? && s.procs[p].phase.left != []
    ensures Further(s, t, p, Writing(s.procs[p].phase.ino, s.procs[p].phase.left[1..])) && t.names == s.names
  {
    OneStep(s, WriteChunk(p));
    t := Apply(s, WriteChunk(p));
  }

  lemma {:induction false} WriteAll(s: State, p: nat, ino: nat, left: seq<Bytes>) returns (t: State)
    requires Reachable(s) && p in s.procs && s.procs[p].phase == Writing(ino, left)
    ensures Further(s, t, p, Writing(ino, [])) && t.names == s.names
    decreases |left|
  {
    if left == [] {
      t := s;
      NoStep(s);
      assert s.procs == s.procs[p := s.procs[p].(phase := Writing(ino, []))];
    } else {
      var next := ChunkWritten(s, p);
      t := WriteAll(next, p, ino, left[1..]);
      FurtherOn(s, next, t, p, Writing(ino, left[1..]), Writing(ino, []));
    }
  }

  lemma Filled(s: State, p: nat, ino: nat) returns (t: State)
    requires Reachable(s) && p in s.procs && s.procs[p].phase == Writing(ino, []) && !s.procs[p].op.Copy? && !s.procs[p].op.broken
    ensures Further(s, t, p, Written(ino)) && t.names == s.names
  {
    OneStep(s, FinishWrite(p));
    t := Apply(s, FinishWrite(p));
  }

  lemma Renamed(s: State, p: nat) returns (t: State)
    requires Reachable(s) && p in s.procs && s.procs[p].phase.Written?
    requires (s.procs[p].op.Put? || s.procs[p].op.CheckThenPut?) && s.procs[p].op.TempName() in s.names
    ensures Further(s, t, p, Done(Stored))
    ensures t.Has(s.procs[p].op.key) && t.Contents(s.procs[p].op.key) == Flatten(s.procs[p].op.chunks)
  {
    OneStep(s, Publish(p));
    InstallGivesWholeBody(s, p);
    t := ApplyPublish(s, p);
  }

  lemma Finished(s: State, p: nat, ino: nat) returns (t: State)
    requires Reachable(s) && p in s.procs && s.procs[p].phase == Writing(ino, [])
    requires (s.procs[p].op.Put? || s.procs[p].op.CheckThenPut?) && !s.procs[p].op.broken && s.procs[p].op.TempName() in s.names
    ensures Further(s, t, p, Done(Stored))
    ensures t.Has(s.procs[p].op.key) && t.Contents(s.procs[p].op.key) == Flatten(s.procs[p].op.chunks)
  {
    var written := Filled(s, p, ino);
    t := Renamed(written, p);
    FurtherOn(s, written, t, p, Written(ino), Done(Stored));
  }

  /** An unconditional write left to itself publishes its whole body. */
  lemma WriterCanFinish(s: State, p: nat) returns (t: State)
    requires Reachable(s) && p in s.procs && s.procs[p].phase.Opening?
    requires (s.procs[p].op.Put? || s.procs[p].op.CheckThenPut?) && !s.procs[p].op.broken
    ensures Further(s, t, p, Done(Stored))
    ensures t.Has(s.procs[p].op.key) && t.Contents(s.procs[p].op.key) == Flatten(s.procs[p].op.chunks)
  {
    var chunks := s.procs[p].op.chunks;
    var created, ino := TempCreated(s, p);
    var full := WriteAll(created, p, ino, chunks);
    FurtherOn(s, created, full, p, Writing(ino, chunks), Writing(ino, []));
    t := Finished(full, p, ino);
    FurtherOn(s, full, t, p, Writing(ino, []), Done(Stored));
  }

  // ---- Conditional writes and streams left to themselves ----

  /** Everything of a write that comes before its publication. */
  lemma Prepared(s: State, p: nat) returns (t: State, ino: nat)
    requires Reachable(s) && p in s.procs && s.procs[p].phase.Opening? && !s.procs[p].op.Copy? && !s.procs[p].op.broken
    ensures Further(s, t, p, Written(ino)) && s.procs[p].op.TempName() in t.names
    ensures forall key :: (Blob(key) in t.names <==> Blob(key) in s.names) && (Blob(key) in s.names ==> t.names[Blob(key)] == s.names[Blob(key)])
  {
    var chunks := s.procs[p].op.chunks;
    var created;
    created, ino := TempCreated(s, p);
    var full := WriteAll(created, p, ino, chunks);
    FurtherOn(s, created, full, p, Writing(ino, chunks), Writing(ino, []));
    t := Filled(full, p, ino);
    FurtherOn(s, full, t, p, Writing(ino, []), Written(ino));
  }

  /** How the link step of a conditional write comes out. */
  function LinkOutcome(s: State, key: string): Outcome {
    if Blob(key) in s.names then Refused else Stored
  }

  lemma Linked(s: State, p: nat) returns (t: State)
    requires Reachable(s) && p in s.procs && s.procs[p].phase.Written? && s.procs[p].op.PutIfNotExists? && s.procs[p].op.TempName() in s.names
    ensures var key := s.procs[p].op.key;
            && Further(s, t, p, Cleaning(LinkOutcome(s, key))) && Blob(key) in t.names
            && (Blob(key) in s.names ==> t.names == s.names) && (Blob(key) !in s.names ==> t.Has(key) && t.Contents(key) == Flatten(s.procs[p].op.chunks))
  {
    OneStep(s, Publish(p));
    if Blob(s.procs[p].op.key) !in s.names {
      InstallGivesWholeBody(s, p);
    }
    t := ApplyPublish(s, p);
  }

  lemma CleanedUp(s: State, p: nat, outcome: Outcome) returns (t: State)
    requires Reachable(s) && p in s.procs && s.procs[p].phase == Cleaning(outcome)
    ensures Further(s, t, p, Done(outcome)) && t.names == s.names - {s.procs[p].op.TempName()} && t.data == s.data
  {
    OneStep(s, CleanUp(p, true));
    t := Apply(s, CleanUp(p, true));
  }

  /** What a key names stays what it is as long as the key goes on naming the same file. */
  lemma SameContents(s: State, t: State, key: string)
    requires Onward(s, t) && Blob(key) in s.names && Blob(key) in t.names && t.names[Blob(key)] == s.names[Blob(key)]
    ensures s.Has(key) && t.Has(key) && t.Contents(key) == s.Contents(key)
  {
    ReachableOk(s);
    var events :| Run(s, events, t);
    SealedForever(s, events, t, s.names[Blob(key)]);
  }

  /** A conditional write left to itself stores its whole body if the key is absent; if not, it is refused and the blob stays. */
  lemma ConditionalCanFinish(s: State, p: nat) returns (t: State)
    requires Reachable(s) && p in s.procs && s.procs[p].phase.Opening? && s.procs[p].op.PutIfNotExists? && !s.procs[p].op.broken
    ensures var key := s.procs[p].op.key;
            && Further(s, t, p, Done(if s.Has(key) then Refused else Stored)) && s.procs[p].op.TempName() !in t.names
            && t.Has(key) && t.Contents(key) == if s.Has(key) then s.Contents(key) else Flatten(s.procs[p].op.chunks)
  {
    var op := s.procs[p].op;
    ReachableOk(s);
    var written, ino := Prepared(s, p);
    var linked := Linked(written, p);
    var outcome := LinkOutcome(written, op.key);
    FurtherOn(s, written, linked, p, Written(ino), Cleaning(outcome));
    t := CleanedUp(linked, p, outcome);
    FurtherOn(s, linked, t, p, Cleaning(outcome), Done(outcome));
    if Blob(op.key) in s.names {
      SameContents(s, t, op.key);
    }
  }

  /** A stream left to itself can be read to its end. */
  lemma ReaderCanFinish(s: State, r: nat) returns (t: State)
    requires Reachable(s) && r in s.readers && !s.readers[r].ended
    ensures Onward(s, t) && r in t.readers && t.readers[r].ended
    ensures s.readers[r].ino in s.data && t.readers[r].out == s.data[s.readers[r].ino]
  {
    ReachableOk(s);
    var u := ReadRest(s, r);
    OneStep(u, EndRead(r));
    t := Apply(u, EndRead(r));
    OnwardOn(s, u, t);
    ReachableOk(t);
  }

  lemma ReadRest(s: State, r: nat) returns (t: State)
    requires Reachable(s) && Inv(s) && r in s.readers && !s.readers[r].ended
    ensures Onward(s, t) && r in t.readers && !t.readers[r].ended && t.readers[r].ino == s.readers[r].ino && t.data == s.data
    ensures t.readers[r].ino in t.data && |t.readers[r].out| >= |t.data[t.readers[r].ino]|
  {
    var file, out := s.data[s.readers[r].ino], s.readers[r].out;
    if |out| < |file| {
      OneStep(s, ReadChunk(r, |file| - |out|));
      t := Apply(s, ReadChunk(r, |file| - |out|));
    } else {
      NoStep(s);
      t := s;
    }
  }
}
