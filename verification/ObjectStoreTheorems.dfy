/** What readers and callers of the object store can rely on. */
module ObjectStoreTheorems {
  import opened Wrappers
  import opened ByteStrings
  import opened Keys
  import opened TempNames
  import opened ObjectAgreement
  import opened ObjectStore
  import opened ObjectStoreInvariant

  // ---- Agreement ----

  /** Outside the window, every object a listing would show agrees with its sidecar, in every reachable state. */
  lemma ObjectsAgree(s: State, bucket: string, key: string, sha256: Bytes -> string)
    requires Reachable(s, sha256) && bucket != INTERNAL_STORAGE_DIR && (bucket, key) !in s.window
    ensures Agrees(s.files, bucket, key, sha256)
  {
    ReachableOk(s, sha256);
  }

  /**
    The same without the window: an object can only disagree if some upload of it has put its data in
    place without then completing with every chunk written.
   */
  lemma DisagreementHasACause(s: State, bucket: string, key: string, sha256: Bytes -> string)
    requires Reachable(s, sha256) && bucket != INTERNAL_STORAGE_DIR && !Agrees(s.files, bucket, key, sha256)
    ensures exists c :: c in s.calls && s.calls[c].Id() == (bucket, key) && Blamed(s.calls[c])
  {
    ReachableOk(s, sha256);
    if (bucket, key) !in s.window {
      ObjectsAgree(s, bucket, key, sha256);
    }
  }

  /**
    The data rename, whatever ran beside it: the object shown with the new data agrees exactly if no complete
    sidecar is in place yet, or if that sidecar records the size and hash of the new data, which is what the
    upload was given if no chunk failed.
   */
  lemma DataRenameAgreesIff(s: State, c: nat, sha256: Bytes -> string)
    requires Reachable(s, sha256) && Enabled(s, PlaceData(c, true))
    ensures s.files[s.calls[c].paths.temp].Data?
    ensures var t, p, stored := Apply(s, PlaceData(c, true), sha256), s.calls[c].paths, s.files[s.calls[c].paths.temp].bytes;
            && At(t.files, p.data) == Some(Data(stored)) && (!s.calls[c].failed ==> stored == s.calls[c].hashed)
            && (Agrees(t.files, p.bucket, p.key, sha256) <==> IsUploading(p.data) || Recorded(s.files, p, stored, sha256))
  {
    ReachableOk(s, sha256);
    var p := s.calls[c].paths;
    assert CallOk(s.files, s.calls[c], sha256);
    MovedElsewhere(s.files, p.temp, p.data);
    var t := Apply(s, PlaceData(c, true), sha256);
    assert At(t.files, p.sidecar) == At(s.files, p.sidecar);
    AgreesIff(t.files, p, s.files[p.temp].bytes, sha256);
  }

  /**
    A completed upload has put both files in place, whatever ran beside it, unless its data file looks temporary
    and was swept between the renames. The object shown then agrees exactly when the file has the size and hash
    of what the upload was given, as it has if no chunk failed.
   */
  lemma CompletionAgreesIff(s: State, c: nat, sha256: Bytes -> string)
    requires Reachable(s, sha256) && Enabled(s, PlaceSidecar(c, true))
    ensures var t, p, hashed := Apply(s, PlaceSidecar(c, true), sha256), s.calls[c].paths, s.calls[c].hashed;
            && At(t.files, p.sidecar) == Some(Sidecar(s.calls[c].Info(sha256))) && p.sidecarTemp !in t.files
            && (p.data in t.files || IsUploading(p.data)) && (p.data in t.files ==> t.files[p.data].Data?)
            && (Shown(t.files, p.bucket, p.key) <==> !IsUploading(p.data))
            && (Agrees(t.files, p.bucket, p.key, sha256) <==>
                  IsUploading(p.data) || SameRecord(t.files[p.data].bytes, hashed, sha256))
            && (!s.calls[c].failed ==> At(t.files, p.data) in {None, Some(Data(hashed))} && (p.bucket, p.key) !in t.window)
  {
    ReachableOk(s, sha256);
    var p := s.calls[c].paths;
    assert CallOk(s.files, s.calls[c], sha256);
    MovedElsewhere(s.files, p.sidecarTemp, p.sidecar);
    var t := Apply(s, PlaceSidecar(c, true), sha256);
    assert At(t.files, p.data) == At(s.files, p.data);
    if p.data in t.files {
      AgreesIff(t.files, p, t.files[p.data].bytes, sha256);
    }
  }

  /** A finished deletion has left neither file, and what the window said of the object no longer counts. */
  lemma DeletionRestores(s: State, c: nat, sha256: Bytes -> string)
    requires Reachable(s, sha256) && Enabled(s, RemoveSidecar(c, true))
    ensures var t, call := Apply(s, RemoveSidecar(c, true), sha256), s.calls[c];
            call.Id() !in t.window && call.sidecar !in t.files && !Shown(t.files, call.bucket, call.key)
            && Agrees(t.files, call.bucket, call.key, sha256)
  {
    ReachableOk(s, sha256);
    assert CallOk(s.files, s.calls[c], sha256);
  }

  predicate Publishing(e: Event) {
    (e.PlaceData? || e.PlaceSidecar? || e.RemoveData? || e.RemoveSidecar?) && e.ok
  }

  /** The events of an upload in progress that publish nothing, apart from `Stop`. */
  predicate TempWork(e: Event) {
    e.Chunk? || e.Describe? || TempEvent(e)
  }

  /** They touch the temporary files of their own upload only. */
  lemma TempWorkStaysApart(s: State, e: Event, sha256: Bytes -> string)
    requires TempWork(e) && InPhase(s, e.c, e)
    ensures s.calls[e.c].Upload? && Only(s.files, Apply(s, e, sha256).files, s.calls[e.c].Temps()) && Apply(s, e, sha256).window == s.window
  {
  }

  lemma TempsLookIt(files: Files, after: Files, call: Call)
    requires call.Upload? && call.paths.Valid() && Only(files, after, call.Temps())
    ensures SamePublished(files, after)
  {
  }

  lemma QuietPublishesNothing(s: State, e: Event, sha256: Bytes -> string)
    requires Inv(s, sha256) && Enabled(s, e) && !Publishing(e)
    ensures SamePublished(s.files, Apply(s, e, sha256).files) && Apply(s, e, sha256).window == s.window
  {
    if TempWork(e) {
      assert CallOk(s.files, s.calls[e.c], sha256);
      TempWorkStaysApart(s, e, sha256);
      TempsLookIt(s.files, Apply(s, e, sha256).files, s.calls[e.c]);
    } else {
      OtherEventsPublishNothing(s, e, sha256);
    }
  }

  /** Every step but the two renames and the two removals leaves all published files, and the window, as they were. */
  lemma OtherStepsPublishNothing(s: State, e: Event, sha256: Bytes -> string)
    requires Reachable(s, sha256) && Enabled(s, e) && !Publishing(e)
    ensures SamePublished(s.files, Apply(s, e, sha256).files) && Apply(s, e, sha256).window == s.window
  {
    ReachableOk(s, sha256);
    QuietPublishesNothing(s, e, sha256);
  }

  lemma OtherEventsPublishNothing(s: State, e: Event, sha256: Bytes -> string)
    requires Enabled(s, e) && !Publishing(e) && !TempWork(e)
    ensures SamePublished(s.files, Apply(s, e, sha256).files) && Apply(s, e, sha256).window == s.window
  {
  }

  // ---- Aborting ----

  /** A call stays what it is, and once it has placed its data it has. */
  lemma StepKeepsPlaced(s: State, e: Event, c: nat, sha256: Bytes -> string)
    requires Enabled(s, e) && c in s.calls
    ensures var t := Apply(s, e, sha256);
            && c in t.calls && (t.calls[c].Upload? <==> s.calls[c].Upload?)
            && (s.calls[c].Upload? && s.calls[c].placed ==> t.calls[c].placed)
            && (s.calls[c].Upload? && e == PlaceData(c, true) ==> t.calls[c].placed)
  {
  }

  lemma {:induction false} RunKeepsPlaced(s: State, events: seq<Event>, t: State, c: nat, sha256: Bytes -> string)
    requires Run(s, events, t, sha256) && c in s.calls
    ensures c in t.calls && (t.calls[c].Upload? <==> s.calls[c].Upload?)
    ensures s.calls[c].Upload? && s.calls[c].placed ==> t.calls[c].placed
    decreases |events|
  {
    if events != [] {
      StepKeepsPlaced(s, events[0], c, sha256);
      RunKeepsPlaced(Apply(s, events[0], sha256), events[1..], t, c, sha256);
    }
  }

  /** An upload that has not placed its data has published nothing in the whole run. */
  lemma {:induction false} UnplacedPublishedNothing(s: State, events: seq<Event>, t: State, c: nat, sha256: Bytes -> string)
    requires Inv(s, sha256) && Run(s, events, t, sha256) && c in t.calls && t.calls[c].Upload? && !t.calls[c].placed
    ensures forall i | 0 <= i < |events| :: Publishing(events[i]) ==> events[i].c != c
    decreases |events|
  {
    if events != [] {
      var e := events[0];
      var u := Apply(s, e, sha256);
      StepOk(s, e, sha256);
      UnplacedPublishedNothing(u, events[1..], t, c, sha256);
      if Publishing(e) && e.c == c {
        assert CallOk(s.files, s.calls[c], sha256);
        StepKeepsPlaced(s, e, c, sha256);
        RunKeepsPlaced(u, events[1..], t, c, sha256);
      }
      assert forall i | 1 <= i < |events| :: events[i] == events[1..][i - 1];
    }
  }

  /** Abort changes nothing published: no step of an aborted upload, from its beginning on, was a publishing one. */
  lemma AbortedPublishedNothing(s: State, events: seq<Event>, t: State, c: nat, sha256: Bytes -> string)
    requires Init(s, sha256) && Run(s, events, t, sha256)
    requires c in t.calls && t.calls[c].Upload? && t.calls[c].phase == Ended(Aborted)
    ensures forall i | 0 <= i < |events| :: Publishing(events[i]) ==> events[i].c != c
  {
    InitOk(s, sha256);
    RunOk(s, events, t, sha256);
    assert CallOk(t.files, t.calls[c], sha256);
    UnplacedPublishedNothing(s, events, t, c, sha256);
  }
}
