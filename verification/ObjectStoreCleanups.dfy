/** What finished deletions and ended uploads leave behind, in any run. */
module ObjectStoreCleanups {
  import opened ByteStrings
  import opened Keys
  import opened ObjectAgreement
  import opened ObjectStore
  import opened ObjectStoreInvariant
  import opened ObjectStoreSweeps

  // ---- Deletions ----

  /** A deletion comes to the sidecar only when the data is gone. */
  ghost predicate DataGone(s: State, c: nat) {
    c in s.calls && s.calls[c].Deletion? && s.calls[c].phase.DeletingSidecar? ==> s.calls[c].data !in s.files
  }

  lemma OwnStepDataGone(s: State, e: Event, c: nat, sha256: Bytes -> string)
    requires Enabled(s, e) && !e.Sweep? && e.c == c
    ensures DataGone(Apply(s, e, sha256), c)
  {
  }

  lemma StepDataGone(s: State, e: Event, c: nat, sha256: Bytes -> string)
    requires Inv(s, sha256) && Enabled(s, e) && DataGone(s, c)
    ensures DataGone(Apply(s, e, sha256), c)
  {
    if !e.Sweep? && e.c == c {
      OwnStepDataGone(s, e, c, sha256);
    } else if c in s.calls {
      OthersStay(s, e, c, sha256);
      if s.calls[c].Deletion? && s.calls[c].phase.DeletingSidecar? {
        StaysGone(s, e, c, s.calls[c].data, sha256);
      }
    } else {
      NoNewCall(s, e, c, sha256);
    }
  }

  lemma NoNewCall(s: State, e: Event, c: nat, sha256: Bytes -> string)
    requires Enabled(s, e) && c !in s.calls && (e.Sweep? || e.c != c)
    ensures c !in Apply(s, e, sha256).calls
  {
  }

  lemma {:induction false} RunDataGone(s: State, events: seq<Event>, t: State, c: nat, sha256: Bytes -> string)
    requires Inv(s, sha256) && Run(s, events, t, sha256) && DataGone(s, c)
    ensures DataGone(t, c)
    decreases |events|
  {
    if events != [] {
      StepDataGone(s, events[0], c, sha256);
      StepOk(s, events[0], sha256);
      RunDataGone(Apply(s, events[0], sha256), events[1..], t, c, sha256);
    }
  }

  /** A deletion that succeeds has left neither the data file nor the sidecar, and its object out of the window. */
  lemma DeletionLeavesNeither(s: State, c: nat, sha256: Bytes -> string)
    requires Reachable(s, sha256) && Enabled(s, RemoveSidecar(c, true))
    ensures var t, call := Apply(s, RemoveSidecar(c, true), sha256), s.calls[c];
            && c in t.calls && t.calls[c].phase == Ended(Succeeded) && call.Id() !in t.window
            && ObjectPath(call.bucket, call.key).Ok?
            && ObjectPath(call.bucket, call.key).value !in t.files && ObjectMetadataPath(call.bucket, call.key).value !in t.files
  {
    var s0, events :| Init(s0, sha256) && Run(s0, events, s, sha256);
    InitOk(s0, sha256);
    RunDataGone(s0, events, s, c, sha256);
    ReachableOk(s, sha256);
    assert CallOk(s.files, s.calls[c], sha256);
  }

  // ---- Uploads ----

  /** Past its first rename, or past the removal of its data's temporary file, an upload has no such file. */
  ghost predicate TempGone(s: State, c: nat) {
    c in s.calls && s.calls[c].Upload? && (s.calls[c].phase.Placed? || s.calls[c].phase.CleaningSidecar?) ==> s.calls[c].paths.temp !in s.files
  }

  lemma OwnStepTempGone(s: State, e: Event, c: nat, sha256: Bytes -> string)
    requires Inv(s, sha256) && Enabled(s, e) && !e.Sweep? && e.c == c && TempGone(s, c) && e != RemoveTemp(c, false)
    ensures TempGone(Apply(s, e, sha256), c)
  {
    if e.BeginUpload? || e.BeginDeletion? {
      BegunTempGone(s, e, sha256);
    } else {
      assert CallOk(s.files, s.calls[c], sha256);
      if s.calls[c].Upload? {
        ValidIsDistinct(s.calls[c].paths);
        UploadStepTempGone(s, e, sha256);
      } else {
        DeletionStepTempGone(s, e, sha256);
      }
    }
  }

  lemma BegunTempGone(s: State, e: Event, sha256: Bytes -> string)
    requires Enabled(s, e) && (e.BeginUpload? || e.BeginDeletion?)
    ensures TempGone(Apply(s, e, sha256), e.c)
  {
  }

  lemma DeletionStepTempGone(s: State, e: Event, sha256: Bytes -> string)
    requires !e.Sweep? && InPhase(s, e.c, e) && Enabled(s, e) && s.calls[e.c].Deletion?
    ensures TempGone(Apply(s, e, sha256), e.c)
  {
  }

  lemma UploadStepTempGone(s: State, e: Event, sha256: Bytes -> string)
    requires !e.Sweep? && InPhase(s, e.c, e) && Enabled(s, e) && s.calls[e.c].Upload? && s.calls[e.c].paths.Distinct()
    requires TempGone(s, e.c) && e != RemoveTemp(e.c, false)
    ensures TempGone(Apply(s, e, sha256), e.c)
  {
  }

  lemma StepTempGone(s: State, e: Event, c: nat, sha256: Bytes -> string)
    requires Inv(s, sha256) && Enabled(s, e) && TempGone(s, c) && e != RemoveTemp(c, false)
    ensures TempGone(Apply(s, e, sha256), c)
  {
    if !e.Sweep? && e.c == c {
      OwnStepTempGone(s, e, c, sha256);
    } else if c in s.calls {
      OthersStay(s, e, c, sha256);
      if s.calls[c].Upload? && (s.calls[c].phase.Placed? || s.calls[c].phase.CleaningSidecar?) {
        StaysGone(s, e, c, s.calls[c].paths.temp, sha256);
      }
    } else {
      NoNewCall(s, e, c, sha256);
    }
  }

  lemma {:induction false} RunTempGone(s: State, events: seq<Event>, t: State, c: nat, sha256: Bytes -> string)
    requires Inv(s, sha256) && Run(s, events, t, sha256) && TempGone(s, c)
    requires forall i | 0 <= i < |events| :: events[i] != RemoveTemp(c, false)
    ensures TempGone(t, c)
    decreases |events|
  {
    if events != [] {
      assert events[0] != RemoveTemp(c, false);
      StepTempGone(s, events[0], c, sha256);
      StepOk(s, events[0], sha256);
      assert forall i | 0 <= i < |events| - 1 :: events[1..][i] == events[i + 1];
      RunTempGone(Apply(s, events[0], sha256), events[1..], t, c, sha256);
    }
  }

  /**
    An upload that ends by its last rename or by cleaning up, in a run in which no removal of its files failed, has
    neither temporary file then: after success, after an abort and after a failed rename alike. The uploads that leave
    files behind are those that could not flush or describe the data, or were stopped.
   */
  lemma EndedUploadLeavesNoTemps(s: State, events: seq<Event>, t: State, e: Event, sha256: Bytes -> string)
    requires Init(s, sha256) && Run(s, events, t, sha256) && Enabled(t, e)
    requires (e.PlaceSidecar? || e.RemoveSidecarTemp?) && e.ok && forall i | 0 <= i < |events| :: events[i] != RemoveTemp(e.c, false)
    ensures var u, p := Apply(t, e, sha256), t.calls[e.c].paths;
            && e.c in u.calls && u.calls[e.c].phase.Ended? && p.temp !in u.files && p.sidecarTemp !in u.files
            && u.calls[e.c].phase.outcome == if e.PlaceSidecar? then Succeeded else t.calls[e.c].phase.outcome
  {
    InitOk(s, sha256);
    RunTempGone(s, events, t, e.c, sha256);
    RunOk(s, events, t, sha256);
    LastStep(t, e, sha256);
  }

  lemma LastStep(t: State, e: Event, sha256: Bytes -> string)
    requires Inv(t, sha256) && Enabled(t, e) && (e.PlaceSidecar? || e.RemoveSidecarTemp?) && e.ok && TempGone(t, e.c)
    ensures var u, p := Apply(t, e, sha256), t.calls[e.c].paths;
            && e.c in u.calls && u.calls[e.c].phase.Ended? && p.temp !in u.files && p.sidecarTemp !in u.files
            && u.calls[e.c].phase.outcome == if e.PlaceSidecar? then Succeeded else t.calls[e.c].phase.outcome
  {
    assert CallOk(t.files, t.calls[e.c], sha256);
  }

  /**
    Which steps end an upload, and how: the last rename, in success; the removal of the sidecar's temporary file; a flush
    or a description that fails; and being stopped. So a rename that fails, and an abort, come to the removals first.
   */
  lemma UploadEndsBy(s: State, e: Event, c: nat, sha256: Bytes -> string)
    requires Enabled(s, e) && c in s.calls && s.calls[c].Upload? && s.calls[c].Live()
    ensures var t := Apply(s, e, sha256);
            && c in t.calls
            && (t.calls[c].phase.Ended? <==>
                  || e == PlaceSidecar(c, true) || e == RemoveSidecarTemp(c, true) || e == RemoveSidecarTemp(c, false)
                  || e == DescribeFails(c, true) || e == DescribeFails(c, false) || e == Stop(c))
            && (t.calls[c].phase == Ended(Succeeded) && e != PlaceSidecar(c, true) ==> s.calls[c].phase == CleaningSidecar(Succeeded))
  {
  }

  /** A flush or a description that fails leaves the data's temporary file as it is. */
  lemma UndescribedLeavesTemp(s: State, c: nat, begun: bool, sha256: Bytes -> string)
    requires Reachable(s, sha256) && Enabled(s, DescribeFails(c, begun))
    ensures var t, p := Apply(s, DescribeFails(c, begun), sha256), s.calls[c].paths;
            t.calls[c].phase == Ended(Failed) && At(t.files, p.temp) == At(s.files, p.temp)
  {
    ReachableOk(s, sha256);
    assert CallOk(s.files, s.calls[c], sha256);
  }
}
