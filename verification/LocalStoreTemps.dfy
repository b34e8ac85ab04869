/** No call of the local store leaves its temporary file behind, unless the removal of that file fails. */
module LocalStoreTemps {
  import opened LocalStore
  import opened LocalStoreInvariant
  import opened LocalStoreRuns
  import opened LocalStoreConditional
  import opened LocalStoreTheorems

  /** If p has ended, its temporary name is gone. */
  predicate Tidy(s: State, p: nat) {
    p in s.procs && (s.procs[p].phase.Done? ==> s.procs[p].op.TempName() !in s.names)
  }

  lemma PublishTidy(s: State, p: nat)
    requires Enabled(s, Publish(p))
    ensures Tidy(ApplyPublish(s, p), p)
  {
  }

  lemma WritingTidy(s: State, e: Event)
    requires Enabled(s, e) && WritingStep(e) && e.p in s.procs && ProcOk(s, e.p)
    ensures Tidy(Apply(s, e), e.p)
  {
    if e.CreateTemp? {
      assert Tidy(ApplyCreateTemp(s, e.p, e.ino), e.p);
    }
  }

  lemma OwnStepTidy(s: State, e: Event)
    requires Inv(s) && Enabled(s, e) && CallStep(e) && e.p in s.procs && e != CleanUp(e.p, false)
    ensures Tidy(Apply(s, e), e.p)
  {
    if WritingStep(e) {
      assert ProcOk(s, e.p);
      WritingTidy(s, e);
    } else if e.Publish? {
      PublishTidy(s, e.p);
    } else {
      EndingTidy(s, e);
    }
  }

  lemma EndingTidy(s: State, e: Event)
    requires Enabled(s, e) && (e.FinishCopy? || e.Fail? || (e.CleanUp? && e.removed))
    ensures Tidy(Apply(s, e), e.p)
  {
  }

  lemma OtherStepTidy(s: State, e: Event, p: nat)
    requires PairsOk(s) && Enabled(s, e) && Tidy(s, p) && !(CallStep(e) && e.p == p)
    ensures Tidy(Apply(s, e), p)
  {
    if CallStep(e) {
      OtherCallLeaves(s, p, e);
    } else {
      OtherEventLeaves(s, p, e);
    }
  }

  /** No removal of p's temporary file fails in the run. */
  ghost predicate RemovalsSucceed(events: seq<Event>, p: nat) {
    forall i | 0 <= i < |events| :: events[i] != CleanUp(p, false)
  }

  lemma RemovalsSucceedTail(events: seq<Event>, p: nat)
    requires RemovalsSucceed(events, p) && events != []
    ensures RemovalsSucceed(events[1..], p) && events[0] != CleanUp(p, false)
  {
    assert forall i | 0 <= i < |events| - 1 :: events[1..][i] == events[i + 1];
  }

  lemma StepTidy(s: State, e: Event, p: nat)
    requires Inv(s) && Enabled(s, e) && Tidy(s, p) && e != CleanUp(p, false)
    ensures Tidy(Apply(s, e), p)
  {
    if CallStep(e) && e.p == p {
      OwnStepTidy(s, e);
    } else {
      OtherStepTidy(s, e, p);
    }
  }

  /** A call that has ended in a run in which no removal of its temporary file failed has left none behind, however it ended. */
  lemma {:induction false} EndedCallsLeaveNoTemp(s: State, events: seq<Event>, t: State, p: nat)
    requires Inv(s) && Run(s, events, t) && Tidy(s, p) && RemovalsSucceed(events, p)
    ensures Tidy(t, p)
    decreases |events|
  {
    if events != [] {
      RemovalsSucceedTail(events, p);
      StepTidy(s, events[0], p);
      StepOk(s, events[0]);
      EndedCallsLeaveNoTemp(Apply(s, events[0]), events[1..], t, p);
    }
  }

  /** A removal that fails leaves the name if it is there. */
  lemma FailedRemovalLeavesTemp(s: State, p: nat)
    requires Enabled(s, CleanUp(p, false))
    ensures var t := Apply(s, CleanUp(p, false));
            p in t.procs && t.procs[p].phase == Done(s.procs[p].phase.outcome) && t.names == s.names
  {
  }
}
