/** The trait's default conditional write on the local store: check, then write. It admits several winners, and exactly when. */
module LocalStoreDefault {
  import opened LocalStore
  import opened LocalStoreRuns
  import opened LocalStoreConditional
  import opened LocalStoreEntries
  import opened LocalStoreProgress

  // ---- A run with two winners ----

  lemma BothBegun(a: Op, b: Op) returns (s: State)
    requires a.CheckThenPut? && b.CheckThenPut? && a.id != b.id
    ensures Reachable(s) && s.names == map[] && s.epochs == map[]
    ensures s.procs == map[0 := Proc(a, Checking), 1 := Proc(b, Checking)]
  {
    var s0 := EmptyStore();
    OneStep(s0, Begin(0, a));
    var s1 := Apply(s0, Begin(0, a));
    OneStep(s1, Begin(1, b));
    s := Apply(s1, Begin(1, b));
  }

  lemma Checked(s: State, p: nat) returns (t: State)
    requires Reachable(s) && p in s.procs && s.procs[p].phase.Checking? && Blob(s.procs[p].op.key) !in s.names
    ensures Further(s, t, p, Opening) && t.names == s.names
  {
    OneStep(s, Check(p));
    t := Apply(s, Check(p));
  }

  lemma BothChecked(a: Op, b: Op) returns (s: State)
    requires a.CheckThenPut? && b.CheckThenPut? && a.id != b.id
    ensures Reachable(s) && s.epochs == map[] && s.procs == map[0 := Proc(a, Opening), 1 := Proc(b, Opening)]
  {
    var s0 := BothBegun(a, b);
    var s1 := Checked(s0, 0);
    s := Checked(s1, 1);
    TwoPhases(a, b, Checking, Opening, Checking, Opening);
  }

  /** Two calls, moved one after the other. */
  lemma TwoPhases(a: Op, b: Op, a0: Phase, a1: Phase, b0: Phase, b1: Phase)
    ensures map[0 := Proc(a, a0), 1 := Proc(b, b0)][0 := Proc(a, a1)][1 := Proc(b, b1)] == map[0 := Proc(a, a1), 1 := Proc(b, b1)]
  {
  }

  /** The default conditional write lets two callers through: both see the key absent, then both write it. */
  lemma DefaultAdmitsTwoWinners(key: string, a: Op, b: Op) returns (t: State)
    requires a.CheckThenPut? && b.CheckThenPut? && a.key == b.key == key && a.id != b.id && !a.broken && !b.broken
    ensures Reachable(t) && t.epochs == map[] && t.procs == map[0 := Proc(a, Done(Stored)), 1 := Proc(b, Done(Stored))]
  {
    var s := BothChecked(a, b);
    var u := WriterCanFinish(s, 0);
    t := WriterCanFinish(u, 1);
    TwoPhases(a, b, Opening, Done(Stored), Opening, Done(Stored));
  }

  // ---- Exactly when two default writes win ----

  /** p can no longer succeed: it has failed or been refused, or will find the key present. */
  predicate Barred(s: State, p: nat) {
    && p in s.procs && s.procs[p].op.CheckThenPut?
    && match s.procs[p].phase
       case Checking => Blob(s.procs[p].op.key) in s.names
       case Cleaning(o) => o != Stored
       case Done(o) => o != Stored
       case _ => false
  }

  lemma StepKeepsBarred(s: State, e: Event, p: nat)
    requires Enabled(s, e) && Barred(s, p) && e != Delete(s.procs[p].op.key)
    ensures Barred(Apply(s, e), p) && Apply(s, e).procs[p].op == s.procs[p].op
  {
    StepKeepsOps(s, e, p);
    if Blob(s.procs[p].op.key) in s.names {
      EntryStays(s, e, s.procs[p].op.key);
    }
  }

  /** A default write that has not checked when the key is present never succeeds, unless the key is deleted. */
  lemma {:induction false} LatecomerNeverStores(s: State, events: seq<Event>, t: State, p: nat)
    requires Run(s, events, t) && Barred(s, p) && forall i | 0 <= i < |events| :: events[i] != Delete(s.procs[p].op.key)
    ensures p in t.procs && !HasStored(t.procs[p].phase)
    decreases |events|
  {
    if events != [] {
      assert events[0] != Delete(s.procs[p].op.key);
      StepKeepsBarred(s, events[0], p);
      assert forall i | 0 <= i < |events| - 1 :: events[1..][i] == events[i + 1];
      LatecomerNeverStores(Apply(s, events[0]), events[1..], t, p);
    }
  }

  /** p has checked and found the key absent: it is not refused any more. */
  predicate Unrefused(s: State, p: nat) {
    && p in s.procs && s.procs[p].op.CheckThenPut?
    && match s.procs[p].phase
       case Checking => false
       case Cleaning(o) => o != Refused
       case Done(o) => o != Refused
       case _ => true
  }

  lemma StepKeepsUnrefused(s: State, e: Event, p: nat)
    requires Enabled(s, e) && Unrefused(s, p)
    ensures Unrefused(Apply(s, e), p)
  {
    StepKeepsOps(s, e, p);
    if WritingStep(e) && e.p == p {
      WritingUnrefused(s, e);
    }
  }

  lemma WritingUnrefused(s: State, e: Event)
    requires WritingStep(e) && Enabled(s, e) && Unrefused(s, e.p)
    ensures Unrefused(Apply(s, e), e.p)
  {
  }

  lemma {:induction false} RunKeepsUnrefused(s: State, events: seq<Event>, t: State, p: nat)
    requires Run(s, events, t) && Unrefused(s, p)
    ensures Unrefused(t, p)
    decreases |events|
  {
    if events != [] {
      StepKeepsUnrefused(s, events[0], p);
      RunKeepsUnrefused(Apply(s, events[0]), events[1..], t, p);
    }
  }

  predicate HasFailed(phase: Phase) {
    phase in {Cleaning(Failed), Done(Failed)}
  }

  lemma {:induction false} FailedStays(s: State, events: seq<Event>, t: State, p: nat)
    requires Run(s, events, t) && p in s.procs && HasFailed(s.procs[p].phase)
    ensures p in t.procs && HasFailed(t.procs[p].phase)
    decreases |events|
  {
    if events != [] {
      StepKeepsOps(s, events[0], p);
      FailedStays(Apply(s, events[0]), events[1..], t, p);
    }
  }

  /** Run by u to the j-th event, which is p's check. */
  ghost predicate ChecksAt(s: State, events: seq<Event>, t: State, p: nat, j: nat, u: State) {
    && j < |events| && events[j] == Check(p) && Run(s, events[..j], u) && Enabled(u, Check(p))
    && Run(Apply(u, Check(p)), events[j + 1..], t)
  }

  lemma ChecksAtLater(s: State, events: seq<Event>, t: State, p: nat, k: nat, u: State)
    requires events != [] && Enabled(s, events[0]) && ChecksAt(Apply(s, events[0]), events[1..], t, p, k, u)
    ensures ChecksAt(s, events, t, p, k + 1, u)
  {
    ShiftedPrefix(events, k);
  }

  lemma NoneBefore(events: seq<Event>, p: nat, k: nat)
    requires events != [] && k < |events[1..]| && events[0] != Publish(p) && events[0] != Check(p)
    requires forall i | 0 <= i < k :: events[1..][i] != Publish(p) && events[1..][i] != Check(p)
    ensures forall i | 0 <= i < k + 1 :: events[i] != Publish(p) && events[i] != Check(p)
  {
    assert forall i | 1 <= i < k + 1 :: events[i] == events[1..][i - 1];
  }

  /** Where a default write that ended without an error made its check. */
  lemma {:induction false} FindCheck(s: State, events: seq<Event>, t: State, p: nat) returns (j: nat, u: State)
    requires Run(s, events, t) && p in s.procs && s.procs[p].phase.Checking?
    requires p in t.procs && t.procs[p].phase in {Done(Stored), Done(Refused)}
    ensures ChecksAt(s, events, t, p, j, u) && u.procs[p].op == s.procs[p].op
    ensures forall i | 0 <= i < j :: events[i] != Publish(p) && events[i] != Check(p)
    decreases |events|
  {
    var e := events[0];
    if e == Check(p) {
      j, u := 0, s;
    } else {
      NotYetChecked(s, e, events[1..], t, p);
      var k;
      k, u := FindCheck(Apply(s, e), events[1..], t, p);
      j := k + 1;
      ChecksAtLater(s, events, t, p, k, u);
      NoneBefore(events, p, k);
    }
  }

  lemma ShiftedPrefix(events: seq<Event>, k: nat)
    requires k + 1 < |events|
    ensures events[1..][..k] == events[..k + 1][1..] && events[1..][k + 1..] == events[k + 2..] && events[..k + 1][0] == events[0]
  {
  }

  /** A step before the check leaves the check to come, unless it is the failure of the call. */
  lemma NotYetChecked(s: State, e: Event, rest: seq<Event>, t: State, p: nat)
    requires Enabled(s, e) && Run(Apply(s, e), rest, t) && e != Check(p)
    requires p in s.procs && s.procs[p].phase.Checking? && p in t.procs && t.procs[p].phase in {Done(Stored), Done(Refused)}
    ensures p in Apply(s, e).procs && Apply(s, e).procs[p] == s.procs[p] && e != Publish(p)
  {
    StepKeepsOps(s, e, p);
    if e.Fail? && e.p == p {
      FailedStays(Apply(s, e), rest, t, p);
    }
  }

  /** In the run p checks before any publication of q. */
  ghost predicate ChecksBefore(events: seq<Event>, p: nat, q: nat) {
    forall i, j | 0 <= i < |events| && 0 <= j < |events| && events[i] == Publish(q) && events[j] == Check(p) :: j < i
  }

  ghost predicate Contends(s: State, t: State, p: nat, key: string) {
    && p in s.procs && s.procs[p].phase.Checking? && s.procs[p].op.CheckThenPut? && s.procs[p].op.key == key
    && p in t.procs && t.procs[p].phase in {Done(Stored), Done(Refused)}
  }

  /** Two default writes of one absent key: nobody deletes the key or publishes under it beside them, and neither meets an error. */
  ghost predicate Contest(s: State, events: seq<Event>, t: State, p: nat, q: nat, key: string) {
    && Run(s, events, t) && p != q && Blob(key) !in s.names
    && Contends(s, t, p, key) && Contends(s, t, q, key)
    && (forall i | 0 <= i < |events| :: events[i] != Delete(key) && (Publishes(events[i], t, key) ==> events[i].p in {p, q}))
  }

  lemma ContestSwaps(s: State, events: seq<Event>, t: State, p: nat, q: nat, key: string)
    requires Contest(s, events, t, p, q, key)
    ensures Contest(s, events, t, q, p, key)
  {
  }

  /** A call that publishes and ends in success has put the key there. */
  lemma PublicationLands(u: State, rest: seq<Event>, t: State, q: nat, key: string)
    requires Enabled(u, Publish(q)) && Run(Apply(u, Publish(q)), rest, t)
    requires u.procs[q].op.CheckThenPut? && u.procs[q].op.key == key && q in t.procs && t.procs[q].phase == Done(Stored)
    ensures Blob(key) in Apply(u, Publish(q)).names
  {
    var v := Apply(u, Publish(q));
    if u.procs[q].op.TempName() !in u.names {
      FailedStays(v, rest, t, q);
    }
  }

  /** If both succeed, p had checked before q published. */
  lemma WinnersChecked(s: State, events: seq<Event>, t: State, p: nat, q: nat, key: string)
    requires Contest(s, events, t, p, q, key) && t.procs[p].phase == Done(Stored) && t.procs[q].phase == Done(Stored)
    ensures ChecksBefore(events, p, q)
  {
    forall i, j | 0 <= i < |events| && 0 <= j < |events| && events[i] == Publish(q) && events[j] == Check(p)
      ensures j < i
    {
      CheckPrecedes(s, events, t, p, q, key, i, j);
    }
  }

  /** Where q publishes: the key is there then, and p is still the call it was. */
  lemma PublishedAt(s: State, events: seq<Event>, t: State, p: nat, q: nat, key: string, i: nat) returns (v: State)
    requires Run(s, events, t) && i < |events| && events[i] == Publish(q) && Contends(s, t, p, key) && Contends(s, t, q, key)
    requires t.procs[q].phase == Done(Stored)
    ensures Run(v, events[i + 1..], t) && Blob(key) in v.names
    ensures p in v.procs && v.procs[p].op == s.procs[p].op
  {
    var u := RunSplit(s, events, t, i);
    v := Apply(u, Publish(q));
    RunKeepsOps(s, events[..i], u, q);
    PublicationLands(u, events[i + 1..], t, q, key);
    RunKeepsOps(s, events[..i], u, p);
    StepKeepsOps(u, Publish(q), p);
  }

  lemma NoDeleteLater(events: seq<Event>, key: string, i: nat)
    requires i < |events| && forall k | 0 <= k < |events| :: events[k] != Delete(key)
    ensures var rest := events[i + 1..]; forall k | 0 <= k < |rest| :: rest[k] != Delete(key)
  {
  }

  lemma CheckPrecedes(s: State, events: seq<Event>, t: State, p: nat, q: nat, key: string, i: nat, j: nat)
    requires Contest(s, events, t, p, q, key) && t.procs[p].phase == Done(Stored) && t.procs[q].phase == Done(Stored)
    requires i < |events| && j < |events| && events[i] == Publish(q) && events[j] == Check(p)
    ensures j < i
  {
    var v := PublishedAt(s, events, t, p, q, key, i);
    NoDeleteLater(events, key, i);
    if i < j {
      assert events[i + 1..][j - i - 1] == Check(p);
      CheckedTooLate(v, events[i + 1..], t, p, key, j - i - 1);
    }
  }

  /** A default write whose check is still to come when the key is there never succeeds. */
  lemma CheckedTooLate(s: State, events: seq<Event>, t: State, p: nat, key: string, j: nat)
    requires Run(s, events, t) && j < |events| && events[j] == Check(p) && Blob(key) in s.names
    requires p in s.procs && s.procs[p].op.CheckThenPut? && s.procs[p].op.key == key
    requires forall i | 0 <= i < |events| :: events[i] != Delete(key)
    ensures p in t.procs && !HasStored(t.procs[p].phase)
  {
    StillChecking(s, events, t, p, j);
    LatecomerNeverStores(s, events, t, p);
  }

  /** A call that checks later in the run has not checked yet. */
  lemma {:induction false} StillChecking(s: State, events: seq<Event>, t: State, p: nat, j: nat)
    requires Run(s, events, t) && j < |events| && events[j] == Check(p) && p in s.procs && s.procs[p].op.CheckThenPut?
    ensures s.procs[p].phase.Checking?
    decreases j
  {
    if j > 0 {
      StepKeepsOps(s, events[0], p);
      StillChecking(Apply(s, events[0]), events[1..], t, p, j - 1);
      NeverBackToChecking(s, events[0], p);
    }
  }

  lemma NeverBackToChecking(s: State, e: Event, p: nat)
    requires Enabled(s, e) && p in s.procs && p in Apply(s, e).procs && Apply(s, e).procs[p].phase.Checking?
    ensures s.procs[p].phase.Checking?
  {
    StepKeepsOps(s, e, p);
    if CallStep(e) && e.p == p {
      OwnStepPastChecking(s, e);
    }
  }

  lemma OwnStepPastChecking(s: State, e: Event)
    requires Enabled(s, e) && CallStep(e) && e.p in s.procs
    ensures !Apply(s, e).procs[e.p].phase.Checking?
  {
    if !WritingStep(e) {
      OwnEndPastChecking(s, e);
    }
  }

  lemma OwnEndPastChecking(s: State, e: Event)
    requires Enabled(s, e) && CallStep(e) && !WritingStep(e)
    ensures !Apply(s, e).procs[e.p].phase.Checking?
  {
    if e.Publish? {
      assert !ApplyPublish(s, e.p).procs[e.p].phase.Checking?;
    } else if e.FinishCopy? {
      assert Apply(s, FinishCopy(e.p)).procs[e.p].phase.Written?;
    } else if e.CleanUp? {
      assert Apply(s, CleanUp(e.p, e.removed)).procs[e.p].phase.Done?;
    } else {
      assert Apply(s, Fail(e.p, e.n)).procs[e.p].phase.Cleaning?;
    }
  }

  /** What publishes under a key does so by any later account of the operations. */
  lemma PublishesLater(u: State, e: Event, rest: seq<Event>, t: State, x: Event, key: string)
    requires Enabled(u, e) && Run(Apply(u, e), rest, t)
    ensures Publishes(x, u, key) ==> Publishes(x, t, key)
  {
    if Publishes(x, u, key) {
      StepKeepsOps(u, e, x.p);
      RunKeepsOps(Apply(u, e), rest, t, x.p);
    }
  }

  /** If p checked before q published, p succeeds. */
  lemma CheckedWins(s: State, events: seq<Event>, t: State, p: nat, q: nat, key: string)
    requires Contest(s, events, t, p, q, key) && ChecksBefore(events, p, q)
    ensures t.procs[p].phase == Done(Stored)
  {
    var j, u := FindCheck(s, events, t, p);
    forall i | 0 <= i < j
      ensures events[..j][i] != Delete(key) && !Publishes(events[..j][i], u, key)
    {
      assert events[..j][i] == events[i];
      PublishesLater(u, Check(p), events[j + 1..], t, events[i], key);
    }
    EntryKept(s, events[..j], u, key);
    var v := Apply(u, Check(p));
    RunKeepsUnrefused(v, events[j + 1..], t, p);
  }

  /** Two default writes of an absent key both succeed if and only if each of them checked before the other published. */
  lemma BothWinIff(s: State, events: seq<Event>, t: State, p: nat, q: nat, key: string)
    requires Contest(s, events, t, p, q, key)
    ensures t.procs[p].phase == Done(Stored) && t.procs[q].phase == Done(Stored) <==>
            ChecksBefore(events, p, q) && ChecksBefore(events, q, p)
  {
    ContestSwaps(s, events, t, p, q, key);
    if t.procs[p].phase == Done(Stored) && t.procs[q].phase == Done(Stored) {
      WinnersChecked(s, events, t, p, q, key);
      WinnersChecked(s, events, t, q, p, key);
    }
    if ChecksBefore(events, p, q) && ChecksBefore(events, q, p) {
      CheckedWins(s, events, t, p, q, key);
      CheckedWins(s, events, t, q, p, key);
    }
  }
}
