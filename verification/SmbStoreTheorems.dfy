/** What callers and readers of one SMB key can rely on, and exactly when conditional creates give less. */
module SmbStoreTheorems {
  import opened Wrappers
  import opened Sequences
  import opened ByteStrings
  import opened SmbStore

  // ---- What a reader finds ----

  /**
    In every reachable state the key is absent, names the file that was there at first, the whole body of
    one put, or the file of one conditional create; that last is a beginning of the call's body, and all
    of it once the call has succeeded.
   */
  lemma KeyIsWhole(calls: seq<Call>, s: State, c: nat)
    requires Reachable(calls, s) && s.entry == Some(By(c))
    ensures c < |calls| && c < |s.contents| && c < |s.phases|
    ensures s.contents[c] <= calls[c].body
    ensures !calls[c].exclusive || s.phases[c] == Won ==> s.contents[c] == calls[c].body
  {
    ReachableInv(calls, s);
    assert CallerOk(calls[c], s.contents[c], s.phases[c], s.madeIn[c]);
  }

  /** While the entry is neither removed nor replaced, the key names the winner's file, and that file is the winner's whole body. */
  lemma WinnerIsStoredWhole(calls: seq<Call>, s: State, c: nat)
    requires Reachable(calls, s)
    requires c < |calls| && c < |s.phases| && c < |s.madeIn| && calls[c].exclusive && s.phases[c] == Won
    requires s.madeIn[c] == Some(s.epoch) && !s.replaced
    ensures s.entry == Some(By(c)) && c < |s.contents| && s.contents[c] == calls[c].body
  {
    ReachableInv(calls, s);
    assert CallerOk(calls[c], s.contents[c], s.phases[c], s.madeIn[c]);
  }

  // ---- Who takes the winner's file away ----

  /** The event takes what the key names away or puts something else in its place. */
  predicate Displaces(calls: seq<Call>, e: Event)
    requires (e.Cleanup? ==> e.c < |calls|)
  {
    e.Delete? || (e.Rename? && e.applied) || (e.Cleanup? && e.applied && calls[e.c].exclusive)
  }

  /**
    Exactly which events take the file of a conditional create from under the key, and whose cleanup can:
    the creator's own, or that of a call whose file was already gone. Its bytes change by the creator's steps only.
   */
  lemma WhoDisplacesWinner(calls: seq<Call>, s: State, e: Event, c: nat)
    requires Reachable(calls, s) && Shaped(calls, s) && Enabled(calls, s, e)
    requires c < |calls| && calls[c].exclusive && s.entry == Some(By(c))
    ensures Apply(calls, s, e).entry != s.entry <==> Displaces(calls, e)
    ensures e.Cleanup? && calls[e.c].exclusive && e.c != c ==> s.madeIn[e.c].Some? && s.madeIn[e.c].value < s.epoch
    ensures Apply(calls, s, e).contents[c] != s.contents[c] ==> !e.Delete? && e.c == c && s.phases[c] != Won
  {
    ReachableInv(calls, s);
    if e.Cleanup? {
      assert CallerOk(calls[e.c], s.contents[e.c], s.phases[e.c], s.madeIn[e.c]);
    }
  }

  /** The event is a step of a conditional create that has no file: it has not created yet, or has lost. */
  predicate LoserStep(calls: seq<Call>, s: State, e: Event)
    requires Shaped(calls, s)
  {
    !e.Delete? && e.c < |calls| && calls[e.c].exclusive && s.madeIn[e.c] == None
  }

  lemma LoserChangesNothing(calls: seq<Call>, s: State, e: Event)
    requires Inv(calls, s) && Enabled(calls, s, e) && LoserStep(calls, s, e) && s.entry.Some?
    ensures var t := Apply(calls, s, e); t == s.(phases := t.phases)
  {
    assert CallerOk(calls[e.c], s.contents[e.c], s.phases[e.c], s.madeIn[e.c]);
  }

  /** A run can be cut at any of its events. */
  lemma {:induction false} RunSplit(calls: seq<Call>, s: State, events: seq<Event>, t: State, i: nat) returns (u: State)
    requires Run(calls, s, events, t) && i < |events|
    ensures Run(calls, s, events[..i], u) && Shaped(calls, u) && Enabled(calls, u, events[i])
    ensures Run(calls, Apply(calls, u, events[i]), events[i + 1..], t)
    decreases i
  {
    if i == 0 {
      u := s;
    } else {
      u := RunSplit(calls, Apply(calls, s, events[0]), events[1..], t, i - 1);
      assert events[1..][..i - 1] == events[..i][1..] && events[1..][i - 1 + 1..] == events[i + 1..];
    }
  }

  /**
    In any run, whatever interleaves: at each step a conditional create takes without having a file,
    an entry that is there stays, and no byte of any file changes.
   */
  lemma LosersAreHarmless(calls: seq<Call>, s: State, events: seq<Event>, t: State, i: nat) returns (u: State)
    requires Reachable(calls, s) && Run(calls, s, events, t) && i < |events|
    ensures Run(calls, s, events[..i], u) && Shaped(calls, u) && Enabled(calls, u, events[i])
    ensures Run(calls, Apply(calls, u, events[i]), events[i + 1..], t)
    ensures LoserStep(calls, u, events[i]) && u.entry.Some? ==>
              var v := Apply(calls, u, events[i]); v == u.(phases := v.phases)
  {
    u := RunSplit(calls, s, events, t, i);
    ReachableInv(calls, s);
    RunKeepsInv(calls, s, events[..i], u);
    if LoserStep(calls, u, events[i]) && u.entry.Some? {
      LoserChangesNothing(calls, u, events[i]);
    }
  }

  /** No event of the run displaces what the key names. */
  ghost predicate Undisplaced(calls: seq<Call>, events: seq<Event>) {
    forall i | 0 <= i < |events| :: (events[i].Cleanup? ==> events[i].c < |calls|) && !Displaces(calls, events[i])
  }

  lemma UndisplacedTail(calls: seq<Call>, events: seq<Event>)
    requires Undisplaced(calls, events) && events != []
    ensures Undisplaced(calls, events[1..])
  {
    assert forall i | 0 <= i < |events| - 1 :: events[1..][i] == events[i + 1];
  }

  /** In a run without displacing events, however many conditional creates it holds, a successful one keeps the key and its whole body. */
  lemma {:induction false} WinnerStands(calls: seq<Call>, s: State, events: seq<Event>, t: State, c: nat)
    requires Inv(calls, s) && Run(calls, s, events, t) && Undisplaced(calls, events)
    requires c < |calls| && calls[c].exclusive && s.entry == Some(By(c)) && s.phases[c] == Won
    ensures t.entry == Some(By(c)) && Shaped(calls, t) && t.phases[c] == Won && t.contents[c] == calls[c].body
    decreases |events|
  {
    assert CallerOk(calls[c], s.contents[c], s.phases[c], s.madeIn[c]);
    if events != [] {
      assert !Displaces(calls, events[0]);
      StepKeepsInv(calls, s, events[0]);
      UndisplacedTail(calls, events);
      WinnerStands(calls, Apply(calls, s, events[0]), events[1..], t, c);
    }
  }

  // ---- One winner ----

  /** Two successful conditional creates took effect in different epochs. */
  lemma OneWinnerPerEpoch(calls: seq<Call>, s: State, c: nat, d: nat)
    requires Reachable(calls, s) && c < |calls| && d < |calls| && calls[c].exclusive && calls[d].exclusive && c != d
    requires c < |s.phases| && d < |s.phases| && s.phases[c] == Won && s.phases[d] == Won
    ensures c < |s.madeIn| && d < |s.madeIn| && s.madeIn[c].Some? && s.madeIn[d].Some? && s.madeIn[c] != s.madeIn[d]
  {
    ReachableInv(calls, s);
    assert CallerOk(calls[c], s.contents[c], s.phases[c], s.madeIn[c]);
    assert CallerOk(calls[d], s.contents[d], s.phases[d], s.madeIn[d]);
  }

  /** No event is a removal of the entry. */
  ghost predicate NoRemoval(calls: seq<Call>, events: seq<Event>) {
    forall i | 0 <= i < |events| :: !Removes(calls, events[i])
  }

  predicate Removes(calls: seq<Call>, e: Event) {
    e.Delete? || (e.Cleanup? && e.applied && e.c < |calls| && calls[e.c].exclusive)
  }

  lemma NoRemovalTail(calls: seq<Call>, events: seq<Event>)
    requires NoRemoval(calls, events) && events != []
    ensures NoRemoval(calls, events[1..]) && !Removes(calls, events[0])
  {
    assert forall i | 0 <= i < |events| - 1 :: events[1..][i] == events[i + 1];
  }

  /** c has its file open and may still succeed. */
  predicate Pending(calls: seq<Call>, s: State, c: nat)
    requires Shaped(calls, s)
  {
    c < |calls| && calls[c].exclusive && (s.phases[c].Writing? || s.phases[c] == Flushed)
  }

  /** c may still succeed although its file is gone: its create took effect before the last removal. */
  predicate Stale(calls: seq<Call>, s: State, c: nat)
    requires Shaped(calls, s)
  {
    Pending(calls, s, c) && s.madeIn[c] != Some(s.epoch)
  }

  /** c has not begun, and would not collide. */
  predicate CanCreate(calls: seq<Call>, s: State, c: nat)
    requires Shaped(calls, s)
  {
    c < |calls| && calls[c].exclusive && s.phases[c] == Ready && s.entry == None
  }

  /** Where a conditional create that succeeds in a period without removals can have stood when the period began. */
  ghost predicate CouldWin(calls: seq<Call>, s: State, t: State, c: nat)
    requires Shaped(calls, s) && Shaped(calls, t) && c < |calls|
  {
    && (Pending(calls, s, c) || CanCreate(calls, s, c))
    && t.madeIn[c] == if s.phases[c] == Ready then Some(s.epoch) else s.madeIn[c]
  }

  lemma StepEpoch(calls: seq<Call>, s: State, e: Event)
    requires Inv(calls, s) && Enabled(calls, s, e) && !Removes(calls, e)
    ensures var t := Apply(calls, s, e); t.epoch == s.epoch && (t.entry == None ==> s.entry == None)
  {
  }

  lemma StepCouldWin(calls: seq<Call>, s: State, e: Event, t: State, c: nat)
    requires Inv(calls, s) && Enabled(calls, s, e) && !Removes(calls, e) && Shaped(calls, t) && c < |calls| && calls[c].exclusive
    requires var u := Apply(calls, s, e); Inv(calls, u) && CouldWin(calls, u, t, c) && u.epoch == s.epoch && (u.entry == None ==> s.entry == None)
    ensures CouldWin(calls, s, t, c)
  {
    assert CallerOk(calls[c], s.contents[c], s.phases[c], s.madeIn[c]);
  }

  lemma StepCouldJustWin(calls: seq<Call>, s: State, e: Event, c: nat)
    requires Inv(calls, s) && Enabled(calls, s, e) && c < |calls| && calls[c].exclusive && s.phases[c] != Won
    requires var u := Apply(calls, s, e); Shaped(calls, u) && u.phases[c] == Won
    ensures CouldWin(calls, s, Apply(calls, s, e), c)
  {
    assert CallerOk(calls[c], s.contents[c], s.phases[c], s.madeIn[c]);
  }

  /** Once won, a call takes no further step. */
  lemma {:induction false} WonStays(calls: seq<Call>, s: State, events: seq<Event>, t: State, c: nat)
    requires Inv(calls, s) && Run(calls, s, events, t) && c < |calls| && calls[c].exclusive && s.phases[c] == Won
    ensures Shaped(calls, t) && t.phases[c] == Won && t.madeIn[c] == s.madeIn[c]
    decreases |events|
  {
    if events != [] {
      StepKeepsInv(calls, s, events[0]);
      WonStays(calls, Apply(calls, s, events[0]), events[1..], t, c);
    }
  }

  lemma {:induction false} WinnersComeFrom(calls: seq<Call>, s: State, events: seq<Event>, t: State, c: nat)
    requires Inv(calls, s) && Run(calls, s, events, t) && NoRemoval(calls, events)
    requires c < |calls| && calls[c].exclusive && s.phases[c] != Won && Shaped(calls, t) && t.phases[c] == Won
    ensures CouldWin(calls, s, t, c) && t.epoch == s.epoch
    decreases |events|
  {
    if events != [] {
      var e := events[0];
      var u := Apply(calls, s, e);
      StepKeepsInv(calls, s, e);
      NoRemovalTail(calls, events);
      StepEpoch(calls, s, e);
      if u.phases[c] == Won {
        StepCouldJustWin(calls, s, e, c);
        WonStays(calls, u, events[1..], t, c);
        EpochStands(calls, u, events[1..], t);
      } else {
        WinnersComeFrom(calls, u, events[1..], t, c);
        StepCouldWin(calls, s, e, t, c);
      }
    }
  }

  lemma {:induction false} EpochStands(calls: seq<Call>, s: State, events: seq<Event>, t: State)
    requires Inv(calls, s) && Run(calls, s, events, t) && NoRemoval(calls, events)
    ensures t.epoch == s.epoch
    decreases |events|
  {
    if events != [] {
      StepKeepsInv(calls, s, events[0]);
      NoRemovalTail(calls, events);
      StepEpoch(calls, s, events[0]);
      EpochStands(calls, Apply(calls, s, events[0]), events[1..], t);
    }
  }

  /** c and d return Some in the course of the run. */
  ghost predicate BothWin(calls: seq<Call>, s: State, t: State, c: nat, d: nat)
    requires Shaped(calls, s)
  {
    && c < |calls| && d < |calls| && c != d && calls[c].exclusive && calls[d].exclusive && Shaped(calls, t)
    && s.phases[c] != Won && s.phases[d] != Won && t.phases[c] == Won && t.phases[d] == Won
  }

  /**
    Of the calls that return Some in a period in which the entry is not removed, at most one has a file
    made since the last removal: any two are the same unless one was stale when the period began.
   */
  lemma OneWinnerPerPeriod(calls: seq<Call>, s: State, events: seq<Event>, t: State, c: nat, d: nat)
    requires Reachable(calls, s) && Run(calls, s, events, t) && NoRemoval(calls, events)
    requires Shaped(calls, s) && BothWin(calls, s, t, c, d)
    ensures CouldWin(calls, s, t, c) && CouldWin(calls, s, t, d)
    ensures (Stale(calls, s, c) && (Pending(calls, s, d) || CanCreate(calls, s, d)))
            || (Stale(calls, s, d) && (Pending(calls, s, c) || CanCreate(calls, s, c)))
  {
    ReachableInv(calls, s);
    WinnersComeFrom(calls, s, events, t, c);
    WinnersComeFrom(calls, s, events, t, d);
    RunKeepsInv(calls, s, events, t);
    assert CallerOk(calls[c], t.contents[c], t.phases[c], t.madeIn[c]);
    assert CallerOk(calls[d], t.contents[d], t.phases[d], t.madeIn[d]);
  }

  // ---- Exactly when two can win ----

  lemma {:induction false} RunConcat(calls: seq<Call>, s: State, a: seq<Event>, t: State, b: seq<Event>, u: State)
    requires Run(calls, s, a, t) && Run(calls, t, b, u)
    ensures Run(calls, s, a + b, u)
    decreases |a|
  {
    if a == [] {
      assert a + b == b;
    } else {
      RunConcat(calls, Apply(calls, s, a[0]), a[1..], t, b, u);
      ConcatHead(a, b);
    }
  }

  lemma RunOne(calls: seq<Call>, s: State, e: Event)
    requires Shaped(calls, s) && Enabled(calls, s, e)
    ensures Run(calls, s, [e], Apply(calls, s, e))
  {
    assert [e][1..] == [];
  }

  lemma NoRemovalConcat(calls: seq<Call>, a: seq<Event>, b: seq<Event>)
    requires NoRemoval(calls, a) && NoRemoval(calls, b)
    ensures NoRemoval(calls, a + b)
  {
  }

  /** t is s with c's call won, by a run that removes nothing. */
  ghost predicate Finishes(calls: seq<Call>, s: State, events: seq<Event>, t: State, c: nat) {
    && Run(calls, s, events, t) && NoRemoval(calls, events) && c < |s.phases|
    && t == s.(phases := s.phases[c := Won], contents := t.contents) && |t.contents| == |s.contents|
  }

  /** A pending create left to itself succeeds. */
  lemma FinishPending(calls: seq<Call>, s: State, c: nat) returns (events: seq<Event>, t: State)
    requires Inv(calls, s) && Pending(calls, s, c)
    ensures Finishes(calls, s, events, t, c)
  {
    if s.phases[c] == Flushed {
      events, t := [Close(c, true)], Apply(calls, s, Close(c, true));
      RunOne(calls, s, Close(c, true));
    } else {
      var first, u := SendRest(calls, s, c);
      var v := Apply(calls, u, Flush(c, true));
      RunOne(calls, u, Flush(c, true));
      RunOne(calls, v, Close(c, true));
      t := Apply(calls, v, Close(c, true));
      RunConcat(calls, u, [Flush(c, true)], v, [Close(c, true)], t);
      RunConcat(calls, s, first, u, [Flush(c, true)] + [Close(c, true)], t);
      events := first + ([Flush(c, true)] + [Close(c, true)]);
    }
  }

  lemma SendRest(calls: seq<Call>, s: State, c: nat) returns (events: seq<Event>, t: State)
    requires Inv(calls, s) && c < |calls| && s.phases[c].Writing?
    ensures Run(calls, s, events, t) && NoRemoval(calls, events) && Shaped(calls, t)
    ensures t == s.(phases := s.phases[c := Writing(|calls[c].body|)], contents := t.contents)
  {
    assert CallerOk(calls[c], s.contents[c], s.phases[c], s.madeIn[c]);
    var rest := |calls[c].body| - s.phases[c].sent;
    if rest == 0 {
      events, t := [], s;
      assert s.phases == s.phases[c := Writing(|calls[c].body|)];
    } else {
      events, t := [Write(c, rest)], Apply(calls, s, Write(c, rest));
      RunOne(calls, s, Write(c, rest));
    }
  }

  lemma FinishCreate(calls: seq<Call>, s: State, c: nat) returns (events: seq<Event>, t: State)
    requires Inv(calls, s) && (Pending(calls, s, c) || CanCreate(calls, s, c))
    ensures Run(calls, s, events, t) && NoRemoval(calls, events) && Shaped(calls, t)
    ensures c < |calls| && t.phases == s.phases[c := Won]
  {
    if Pending(calls, s, c) {
      events, t := FinishPending(calls, s, c);
    } else {
      var u := Apply(calls, s, CreateReplied(c));
      RunOne(calls, s, CreateReplied(c));
      StepKeepsInv(calls, s, CreateReplied(c));
      var rest;
      rest, t := FinishPending(calls, u, c);
      events := [CreateReplied(c)] + rest;
      assert u.phases[c := Won] == s.phases[c := Won];
      NoRemovalConcat(calls, [CreateReplied(c)], rest);
      RunConcat(calls, s, [CreateReplied(c)], u, rest, t);
    }
  }

  lemma TwoCanWin(calls: seq<Call>, s: State, c: nat, d: nat) returns (events: seq<Event>, t: State)
    requires Inv(calls, s) && c != d && Stale(calls, s, c) && (Pending(calls, s, d) || CanCreate(calls, s, d))
    ensures Run(calls, s, events, t) && NoRemoval(calls, events) && BothWin(calls, s, t, c, d)
  {
    var first, u := FinishPending(calls, s, c);
    RunKeepsInv(calls, s, first, u);
    var second;
    second, t := FinishCreate(calls, u, d);
    events := first + second;
    RunConcat(calls, s, first, u, second, t);
    NoRemovalConcat(calls, first, second);
  }

  /** From s on, a run without removals can make two calls return Some. */
  ghost predicate TwoMayWin(calls: seq<Call>, s: State)
    requires Shaped(calls, s)
  {
    exists events, t, c, d :: Run(calls, s, events, t) && NoRemoval(calls, events) && BothWin(calls, s, t, c, d)
  }

  /** A call is stale, and another can still succeed. */
  ghost predicate StaleBeside(calls: seq<Call>, s: State, c: nat, d: nat)
    requires Shaped(calls, s)
  {
    c != d && Stale(calls, s, c) && (Pending(calls, s, d) || CanCreate(calls, s, d))
  }

  /**
    Two calls can both return Some in a period without removals exactly when, as it begins, some call is
    stale and another can still succeed. With no create left over from before the last removal there is
    one winner.
   */
  lemma TwoWinnersIff(calls: seq<Call>, s: State)
    requires Reachable(calls, s) && Shaped(calls, s)
    ensures TwoMayWin(calls, s) <==> exists c, d :: StaleBeside(calls, s, c, d)
  {
    ReachableInv(calls, s);
    if TwoMayWin(calls, s) {
      var c, d := SomeStale(calls, s);
    }
    if c, d :| StaleBeside(calls, s, c, d) {
      StaleLetsTwoWin(calls, s, c, d);
    }
  }

  lemma SomeStale(calls: seq<Call>, s: State) returns (c: nat, d: nat)
    requires Reachable(calls, s) && Shaped(calls, s) && TwoMayWin(calls, s)
    ensures StaleBeside(calls, s, c, d)
  {
    var events, t, a, b :| Run(calls, s, events, t) && NoRemoval(calls, events) && BothWin(calls, s, t, a, b);
    OneWinnerPerPeriod(calls, s, events, t, a, b);
    if Stale(calls, s, a) && (Pending(calls, s, b) || CanCreate(calls, s, b)) {
      c, d := a, b;
    } else {
      c, d := b, a;
    }
  }

  lemma StaleLetsTwoWin(calls: seq<Call>, s: State, c: nat, d: nat)
    requires Inv(calls, s) && StaleBeside(calls, s, c, d)
    ensures TwoMayWin(calls, s)
  {
    var events, t := TwoCanWin(calls, s, c, d);
  }

  // ---- What the protocol does not promise ----

  lemma ReachableStep(calls: seq<Call>, s: State, e: Event, t: State)
    requires Reachable(calls, s) && Shaped(calls, s) && Enabled(calls, s, e) && t == Apply(calls, s, e)
    ensures Reachable(calls, t)
  {
    var s0, events :| Init(calls, s0) && Run(calls, s0, events, s);
    RunOne(calls, s, e);
    RunConcat(calls, s0, events, s, [e], t);
  }

  lemma InitReachable(calls: seq<Call>, s: State)
    requires Init(calls, s)
    ensures Reachable(calls, s)
  {
    assert Run(calls, s, [], s);
  }

  /** A reader can find part of a body: a conditional create writes under the final name. */
  lemma PartIsVisible(body: Bytes) returns (s: State)
    requires body != []
    ensures Reachable([Call(body, true)], s) && s.entry == Some(By(0)) && |s.contents| == 1 && s.contents[0] != body
  {
    var calls := [Call(body, true)];
    var s0 := State(None, [[]], [Ready], 0, [None], false);
    InitReachable(calls, s0);
    s := State(Some(By(0)), [[]], [Writing(0)], 0, [Some(0)], false);
    ReachableStep(calls, s0, CreateReplied(0), s);
  }

  const TWO: seq<Call> := [Call([], true), Call([], true)]

  /** A call has flushed its file, or failed to, when the file has already been deleted. */
  lemma DeletedMeanwhile(phase: Phase, s: State)
    requires phase in {Flushed, Cleaning}
    requires s == State(None, [[], []], [phase, Ready], 1, [Some(0), None], false)
    ensures Reachable(TWO, s)
  {
    var s0 := State(None, [[], []], [Ready, Ready], 0, [None, None], false);
    InitReachable(TWO, s0);
    var s1 := State(Some(By(0)), [[], []], [Writing(0), Ready], 0, [Some(0), None], false);
    ReachableStep(TWO, s0, CreateReplied(0), s1);
    var s2 := State(Some(By(0)), [[], []], [phase, Ready], 0, [Some(0), None], false);
    ReachableStep(TWO, s1, Flush(0, phase == Flushed), s2);
    ReachableStep(TWO, s2, Delete, s);
  }

  /** Two calls do return Some in one period without removals: the file of the first had been deleted before it. */
  lemma TwoWinInOnePeriod() returns (s: State, events: seq<Event>, t: State)
    ensures Reachable(TWO, s) && Shaped(TWO, s) && Run(TWO, s, events, t) && NoRemoval(TWO, events) && BothWin(TWO, s, t, 0, 1)
  {
    s := State(None, [[], []], [Flushed, Ready], 1, [Some(0), None], false);
    DeletedMeanwhile(Flushed, s);
    ReachableInv(TWO, s);
    events, t := TwoCanWin(TWO, s, 0, 1);
  }

  /** Cleanup goes by name: a call whose file was deleted can remove the file of a call that has already won. */
  lemma CleanupCanRemoveAWinner() returns (s: State, t: State)
    ensures Reachable(TWO, s) && Shaped(TWO, s) && s.phases[1] == Won && s.entry == Some(By(1))
    ensures Enabled(TWO, s, Cleanup(0, true)) && t == Apply(TWO, s, Cleanup(0, true)) && t.entry == None
  {
    var s3 := State(None, [[], []], [Cleaning, Ready], 1, [Some(0), None], false);
    DeletedMeanwhile(Cleaning, s3);
    var s4 := State(Some(By(1)), [[], []], [Cleaning, Writing(0)], 1, [Some(0), Some(1)], false);
    ReachableStep(TWO, s3, CreateReplied(1), s4);
    var s5 := State(Some(By(1)), [[], []], [Cleaning, Flushed], 1, [Some(0), Some(1)], false);
    ReachableStep(TWO, s4, Flush(1, true), s5);
    s := State(Some(By(1)), [[], []], [Cleaning, Won], 1, [Some(0), Some(1)], false);
    ReachableStep(TWO, s5, Close(1, true), s);
    t := Apply(TWO, s, Cleanup(0, true));
  }

  // ---- How calls come out ----

  /** c's outcome with respect to a collision is decided: it has created, or collided, or will never do either. */
  predicate Past(calls: seq<Call>, s: State, c: nat, lost: bool)
    requires Shaped(calls, s)
  {
    c < |calls| && s.phases[c] != Ready && (s.phases[c] == Lost <==> lost)
  }

  lemma StepKeepsPast(calls: seq<Call>, s: State, e: Event, c: nat, lost: bool)
    requires Shaped(calls, s) && Enabled(calls, s, e) && Past(calls, s, c, lost)
    ensures Shaped(calls, Apply(calls, s, e)) && Past(calls, Apply(calls, s, e), c, lost)
  {
  }

  lemma {:induction false} RunKeepsPast(calls: seq<Call>, s: State, events: seq<Event>, t: State, c: nat, lost: bool)
    requires Shaped(calls, s) && Run(calls, s, events, t) && Past(calls, s, c, lost)
    ensures Shaped(calls, t) && Past(calls, t, c, lost)
    decreases |events|
  {
    if events != [] {
      StepKeepsPast(calls, s, events[0], c, lost);
      RunKeepsPast(calls, Apply(calls, s, events[0]), events[1..], t, c, lost);
    }
  }

  /**
    Whether a call reports an existing file is decided when its create is answered, whatever comes after: a conditional
    create reports one exactly if the key named a file at that moment, and a put never does.
   */
  lemma CreateDecides(calls: seq<Call>, s: State, events: seq<Event>, t: State, i: nat, c: nat) returns (u: State)
    requires Reachable(calls, s) && Run(calls, s, events, t) && i < |events| && events[i] == CreateReplied(c)
    ensures Run(calls, s, events[..i], u) && c < |calls| && Shaped(calls, t)
    ensures t.phases[c] == Lost <==> calls[c].exclusive && u.entry.Some?
  {
    u := RunSplit(calls, s, events, t, i);
    ReachableInv(calls, s);
    RunKeepsInv(calls, s, events[..i], u);
    StepKeepsInv(calls, u, events[i]);
    RunKeepsPast(calls, Apply(calls, u, events[i]), events[i + 1..], t, c, calls[c].exclusive && u.entry.Some?);
  }

  /** A call never reports an existing file unless its create was answered. */
  lemma {:induction false} LostWasAnswered(calls: seq<Call>, s: State, events: seq<Event>, t: State, c: nat)
    requires Shaped(calls, s) && Run(calls, s, events, t) && c < |calls| && s.phases[c] != Lost
    requires c < |t.phases| && t.phases[c] == Lost
    ensures CreateReplied(c) in events
    decreases |events|
  {
    if events[0] != CreateReplied(c) {
      LostWasAnswered(calls, Apply(calls, s, events[0]), events[1..], t, c);
      assert forall e | e in events[1..] :: e in events;
    }
  }

  /** A create that takes effect although its reply is lost leaves an empty file under the key, and the call takes no further step. */
  lemma UnansweredCreateStays(calls: seq<Call>, s: State, c: nat)
    requires Reachable(calls, s) && Shaped(calls, s) && Enabled(calls, s, CreateUnanswered(c, true)) && calls[c].exclusive
    ensures var t := Apply(calls, s, CreateUnanswered(c, true));
            && Shaped(calls, t) && t.entry == Some(By(c)) && t.contents[c] == [] && t.phases[c] == Failed
            && forall e: Event | Enabled(calls, t, e) && !e.Delete? :: e.c != c
  {
  }

  /** The event is one by which call c fails: its own cleanup, or a conditional create that gets no reply. */
  predicate EndsInFailure(calls: seq<Call>, e: Event, c: nat) {
    || (e.Cleanup? && e.c == c)
    || (e.CreateUnanswered? && e.c == c && c < |calls| && calls[c].exclusive)
  }

  lemma StepFails(calls: seq<Call>, s: State, e: Event, c: nat)
    requires Shaped(calls, s) && Enabled(calls, s, e) && c < |calls| && s.phases[c] != Failed
    ensures Shaped(calls, Apply(calls, s, e)) && (Apply(calls, s, e).phases[c] == Failed <==> EndsInFailure(calls, e, c))
  {
  }

  /** A call fails only by way of its cleanup, or because its conditional create got no reply; nothing else ends in failure. */
  lemma {:induction false} FailureCleansUp(calls: seq<Call>, s: State, events: seq<Event>, t: State, c: nat)
    requires Shaped(calls, s) && Run(calls, s, events, t) && c < |calls| && s.phases[c] != Failed && c < |t.phases| && t.phases[c] == Failed
    ensures exists i :: 0 <= i < |events| && EndsInFailure(calls, events[i], c)
    decreases |events|
  {
    StepFails(calls, s, events[0], c);
    if !EndsInFailure(calls, events[0], c) {
      FailureCleansUp(calls, Apply(calls, s, events[0]), events[1..], t, c);
      var i :| 0 <= i < |events| - 1 && EndsInFailure(calls, events[1..][i], c);
      assert events[i + 1] == events[1..][i];
    }
  }

  /** A put left to itself puts its whole body under the key, whatever the key named, and reports success. */
  lemma PutCanFinish(calls: seq<Call>, s: State, c: nat) returns (events: seq<Event>, t: State)
    requires Reachable(calls, s) && Shaped(calls, s) && c < |calls| && !calls[c].exclusive && s.phases[c] == Ready
    ensures Run(calls, s, events, t) && Shaped(calls, t) && t.phases == s.phases[c := Won]
    ensures t.entry == Some(By(c)) && t.contents[c] == calls[c].body
  {
    ReachableInv(calls, s);
    var s1 := Apply(calls, s, CreateReplied(c));
    RunOne(calls, s, CreateReplied(c));
    StepKeepsInv(calls, s, CreateReplied(c));
    var sending, s2 := SendRest(calls, s1, c);
    RunKeepsInv(calls, s1, sending, s2);
    var rest;
    rest, t := PublishPut(calls, s2, c);
    RunConcat(calls, s1, sending, s2, rest, t);
    RunConcat(calls, s, [CreateReplied(c)], s1, sending + rest, t);
    events := [CreateReplied(c)] + (sending + rest);
    assert s1.phases[c := Writing(|calls[c].body|)][c := Won] == s.phases[c := Won];
  }

  lemma PublishPut(calls: seq<Call>, s: State, c: nat) returns (events: seq<Event>, t: State)
    requires Inv(calls, s) && c < |calls| && !calls[c].exclusive && s.phases[c] == Writing(|calls[c].body|)
    ensures Run(calls, s, events, t) && Shaped(calls, t) && t.phases == s.phases[c := Won]
    ensures t.entry == Some(By(c)) && t.contents[c] == calls[c].body
  {
    assert CallerOk(calls[c], s.contents[c], s.phases[c], s.madeIn[c]);
    assert calls[c].body[..|calls[c].body|] == calls[c].body;
    var u := Apply(calls, s, Flush(c, true));
    var v := Apply(calls, u, Close(c, true));
    t := Apply(calls, v, Rename(c, true, true));
    RunOne(calls, s, Flush(c, true));
    RunOne(calls, u, Close(c, true));
    RunOne(calls, v, Rename(c, true, true));
    RunConcat(calls, u, [Close(c, true)], v, [Rename(c, true, true)], t);
    RunConcat(calls, s, [Flush(c, true)], u, [Close(c, true)] + [Rename(c, true, true)], t);
    events := [Flush(c, true)] + ([Close(c, true)] + [Rename(c, true, true)]);
    assert s.phases[c := Flushed][c := Closed][c := Won] == s.phases[c := Won];
  }
}
