/** The transfer semaphore of the SMB backend, with the trait's default copy holding one permit while it asks for another. */
module TransferLimit {

  /** A get or a put takes one permit; a copy takes one for its read and then one for its write. `work` counts chunks. */
  datatype Job = Job(copy: bool, work: nat)

  datatype Phase =
    | Waiting          // no permit yet
    | Holding          // a copy with its read permit, waiting for its write permit
    | Both(left: nat)  // a copy moving chunks
    | One(left: nat)   // a get or put moving chunks, or a copy whose read stream has ended
    | Done

  datatype State = State(free: nat, phases: seq<Phase>)

  datatype Event =
    | Acquire(i: nat)
    | Move(i: nat)     // one chunk read and written
    | EndRead(i: nat)  // the read stream ends and drops its permit
    | Finish(i: nat)
    | Drop(i: nat)     // failure or cancellation at any point

  function Permits(p: Phase): nat {
    match p
    case Waiting => 0
    case Holding => 1
    case Both(_) => 2
    case One(_) => 1
    case Done => 0
  }

  function Held(phases: seq<Phase>): nat {
    if phases == [] then 0 else Permits(phases[0]) + Held(phases[1..])
  }

  function Start(jobs: seq<Job>, limit: nat): State {
    State(limit, seq(|jobs|, i => Waiting))
  }

  predicate Enabled(jobs: seq<Job>, s: State, e: Event) {
    e.i < |s.phases| && e.i < |jobs| &&
    match e
    case Acquire(i) => s.phases[i] in {Waiting, Holding} && s.free > 0
    case Move(i) => (s.phases[i].Both? || s.phases[i].One?) && s.phases[i].left > 0
    case EndRead(i) => s.phases[i] == Both(0)
    case Finish(i) => s.phases[i] == One(0)
    case Drop(i) => s.phases[i] != Done
  }

  function NextPhase(job: Job, p: Phase, e: Event): Phase {
    match e
    case Acquire(_) => if p == Holding then Both(job.work) else if job.copy then Holding else One(job.work)
    case Move(_) =>
      (match p
       case Both(left) => if left > 0 then Both(left - 1) else p
       case One(left) => if left > 0 then One(left - 1) else p
       case _ => p)
    case EndRead(_) => One(0)
    case Finish(_) => Done
    case Drop(_) => Done
  }

  function Apply(jobs: seq<Job>, s: State, e: Event): State
    requires Enabled(jobs, s, e)
  {
    var next := NextPhase(jobs[e.i], s.phases[e.i], e);
    var before, after := Permits(s.phases[e.i]), Permits(next);
    State(if s.free + before >= after then s.free + before - after else 0, s.phases[e.i := next])
  }

  ghost predicate Run(jobs: seq<Job>, s: State, events: seq<Event>, t: State)
    decreases events
  {
    if events == [] then s == t
    else Enabled(jobs, s, events[0]) && Run(jobs, Apply(jobs, s, events[0]), events[1..], t)
  }

  ghost predicate Reachable(jobs: seq<Job>, limit: nat, s: State) {
    exists events :: Run(jobs, Start(jobs, limit), events, s)
  }

  // ---- Conservation ----

  lemma {:induction false} HeldUpdate(phases: seq<Phase>, i: nat, p: Phase)
    requires i < |phases|
    ensures Held(phases[i := p]) + Permits(phases[i]) == Held(phases) + Permits(p)
  {
    if i == 0 {
      assert phases[i := p][1..] == phases[1..];
    } else {
      HeldUpdate(phases[1..], i - 1, p);
      assert phases[i := p][1..] == phases[1..][i - 1 := p];
    }
  }

  lemma {:induction false} HeldAt(phases: seq<Phase>, i: nat)
    requires i < |phases|
    ensures Permits(phases[i]) <= Held(phases)
  {
    if i > 0 {
      HeldAt(phases[1..], i - 1);
    }
  }

  lemma {:induction false} HeldNone(phases: seq<Phase>)
    requires forall i | 0 <= i < |phases| :: phases[i] == Waiting
    ensures Held(phases) == 0
  {
    if phases != [] {
      HeldNone(phases[1..]);
    }
  }

  /** Permits are neither made nor lost, and only copies reach the two-permit phases. */
  ghost predicate Inv(jobs: seq<Job>, limit: nat, s: State) {
    && |s.phases| == |jobs|
    && s.free + Held(s.phases) == limit
    && forall i | 0 <= i < |jobs| :: s.phases[i] == Holding || s.phases[i].Both? ==> jobs[i].copy
  }

  lemma StepKeepsInv(jobs: seq<Job>, limit: nat, s: State, e: Event)
    requires Inv(jobs, limit, s) && Enabled(jobs, s, e)
    ensures Inv(jobs, limit, Apply(jobs, s, e))
  {
    var next := NextPhase(jobs[e.i], s.phases[e.i], e);
    HeldUpdate(s.phases, e.i, next);
  }

  lemma {:induction false} RunKeepsInv(jobs: seq<Job>, limit: nat, s: State, events: seq<Event>, t: State)
    requires Inv(jobs, limit, s) && Run(jobs, s, events, t)
    ensures Inv(jobs, limit, t)
    decreases events
  {
    if events != [] {
      StepKeepsInv(jobs, limit, s, events[0]);
      RunKeepsInv(jobs, limit, Apply(jobs, s, events[0]), events[1..], t);
    }
  }

  /** However transfers interleave, fail or are cancelled, the permits held and the permits free add up to the limit. */
  lemma PermitsConserved(jobs: seq<Job>, limit: nat, s: State)
    requires Reachable(jobs, limit, s)
    ensures Inv(jobs, limit, s) && Held(s.phases) <= limit
  {
    var events :| Run(jobs, Start(jobs, limit), events, s);
    HeldNone(Start(jobs, limit).phases);
    RunKeepsInv(jobs, limit, Start(jobs, limit), events, s);
  }

  // ---- Deadlock ----

  function Copies(jobs: seq<Job>): nat {
    if jobs == [] then 0 else (if jobs[0].copy then 1 else 0) + Copies(jobs[1..])
  }

  function HoldingCount(phases: seq<Phase>): nat {
    if phases == [] then 0 else (if phases[0] == Holding then 1 else 0) + HoldingCount(phases[1..])
  }

  ghost predicate AllDone(s: State) {
    forall p | p in s.phases :: p == Done
  }

  ghost predicate CanStep(jobs: seq<Job>, s: State) {
    exists e: Event :: !e.Drop? && Enabled(jobs, s, e)
  }

  /** Unfinished, and nothing but failure or cancellation can happen. */
  ghost predicate Stuck(jobs: seq<Job>, s: State) {
    !AllDone(s) && !CanStep(jobs, s)
  }

  lemma {:induction false} HoldingOnly(phases: seq<Phase>)
    ensures HoldingCount(phases) <= Held(phases)
    ensures HoldingCount(phases) == Held(phases) <==> forall i | 0 <= i < |phases| :: phases[i] in {Waiting, Holding, Done}
  {
    if phases != [] {
      var rest := phases[1..];
      HoldingOnly(rest);
      assert forall i | 0 <= i < |rest| :: rest[i] == phases[i + 1];
      assert forall i | 0 < i < |phases| :: phases[i] == rest[i - 1];
    }
  }

  lemma {:induction false} SomeHolding(phases: seq<Phase>)
    requires HoldingCount(phases) > 0
    ensures Holding in phases
  {
    if phases[0] != Holding {
      SomeHolding(phases[1..]);
    }
  }

  /** Deadlock is exactly the state in which every permit is held by a copy waiting for its second. */
  lemma DeadlockIff(jobs: seq<Job>, limit: nat, s: State)
    requires limit > 0 && Reachable(jobs, limit, s)
    ensures Stuck(jobs, s) <==> HoldingCount(s.phases) == limit
  {
    PermitsConserved(jobs, limit, s);
    HoldingOnly(s.phases);
    if HoldingCount(s.phases) == limit {
      SomeHolding(s.phases);
      assert s.free == 0;
      forall e: Event | !e.Drop?
        ensures !Enabled(jobs, s, e)
      {
        if e.i < |s.phases| {
          assert s.phases[e.i] in s.phases;
        }
      }
    }
    if Stuck(jobs, s) {
      var p :| p in s.phases && p != Done;
      var i :| 0 <= i < |s.phases| && s.phases[i] == p;
      forall k | 0 <= k < |s.phases|
        ensures s.phases[k] in {Waiting, Holding, Done}
      {
        assert !Enabled(jobs, s, Move(k)) && !Enabled(jobs, s, EndRead(k)) && !Enabled(jobs, s, Finish(k));
      }
      assert !Enabled(jobs, s, Acquire(i));
    }
  }

  /** The copies that hold a permit; those that have not started or are done do not count. */
  function CopiesInFlight(jobs: seq<Job>, phases: seq<Phase>): nat
    requires |jobs| == |phases|
  {
    if jobs == [] then 0
    else (if jobs[0].copy && Permits(phases[0]) > 0 then 1 else 0) + CopiesInFlight(jobs[1..], phases[1..])
  }

  lemma {:induction false} HoldersInFlight(jobs: seq<Job>, phases: seq<Phase>)
    requires |jobs| == |phases|
    requires forall i | 0 <= i < |jobs| :: phases[i] == Holding ==> jobs[i].copy
    ensures HoldingCount(phases) <= CopiesInFlight(jobs, phases) <= Copies(jobs)
  {
    if jobs != [] {
      forall i | 0 <= i < |jobs| - 1
        ensures phases[1..][i] == Holding ==> jobs[1..][i].copy
      {
        assert phases[1..][i] == phases[i + 1] && jobs[1..][i] == jobs[i + 1];
      }
      HoldersInFlight(jobs[1..], phases[1..]);
    }
  }

  /** While fewer copies are in flight than there are permits, some unfinished transfer can go on, however many copies are still to come. */
  lemma FewCopiesNeverStick(jobs: seq<Job>, limit: nat, s: State)
    requires Reachable(jobs, limit, s) && |s.phases| == |jobs| && CopiesInFlight(jobs, s.phases) < limit
    ensures !Stuck(jobs, s)
  {
    DeadlockIff(jobs, limit, s);
    PermitsConserved(jobs, limit, s);
    HoldersInFlight(jobs, s.phases);
  }

  // ---- Termination ----

  function Rank(job: Job, p: Phase): nat {
    match p
    case Waiting => job.work + 4
    case Holding => job.work + 3
    case Both(left) => left + 2
    case One(left) => left + 1
    case Done => 0
  }

  function Measure(jobs: seq<Job>, phases: seq<Phase>): nat
    requires |jobs| == |phases|
  {
    if jobs == [] then 0 else Rank(jobs[0], phases[0]) + Measure(jobs[1..], phases[1..])
  }

  lemma {:induction false} MeasureUpdate(jobs: seq<Job>, phases: seq<Phase>, i: nat, p: Phase)
    requires |jobs| == |phases| && i < |jobs|
    ensures Measure(jobs, phases[i := p]) + Rank(jobs[i], phases[i]) == Measure(jobs, phases) + Rank(jobs[i], p)
  {
    if i == 0 {
      assert phases[i := p][1..] == phases[1..];
    } else {
      MeasureUpdate(jobs[1..], phases[1..], i - 1, p);
      assert phases[i := p][1..] == phases[1..][i - 1 := p];
    }
  }

  /** No run is longer than the work there is. */
  lemma {:induction false} RunsAreBounded(jobs: seq<Job>, s: State, events: seq<Event>, t: State)
    requires |s.phases| == |jobs| && Run(jobs, s, events, t)
    ensures |t.phases| == |jobs| && |events| + Measure(jobs, t.phases) <= Measure(jobs, s.phases)
    decreases events
  {
    if events != [] {
      var e := events[0];
      MeasureUpdate(jobs, s.phases, e.i, NextPhase(jobs[e.i], s.phases[e.i], e));
      RunsAreBounded(jobs, Apply(jobs, s, e), events[1..], t);
    }
  }

  lemma {:induction false} RunConcat(jobs: seq<Job>, s: State, a: seq<Event>, t: State, b: seq<Event>, u: State)
    requires Run(jobs, s, a, t) && Run(jobs, t, b, u)
    ensures Run(jobs, s, a + b, u)
    decreases a
  {
    if a == [] {
      assert a + b == b;
    } else {
      RunConcat(jobs, Apply(jobs, s, a[0]), a[1..], t, b, u);
      assert (a + b)[1..] == a[1..] + b;
    }
  }

  lemma ReachableStep(jobs: seq<Job>, limit: nat, s: State, e: Event)
    requires Reachable(jobs, limit, s) && Enabled(jobs, s, e)
    ensures Reachable(jobs, limit, Apply(jobs, s, e))
  {
    var events :| Run(jobs, Start(jobs, limit), events, s);
    var t := Apply(jobs, s, e);
    assert [e][1..] == [];
    assert Run(jobs, t, [], t);
    assert Run(jobs, s, [e], t);
    RunConcat(jobs, Start(jobs, limit), events, s, [e], t);
  }

  /**
    A run that cannot be continued has finished every transfer, if it ends with fewer copies in flight than
    permits; with fewer copies in all it always does. By `RunsAreBounded` every run stops.
   */
  lemma MaximalRunsFinish(jobs: seq<Job>, limit: nat, s: State, events: seq<Event>, t: State)
    requires Reachable(jobs, limit, s) && Run(jobs, s, events, t) && !CanStep(jobs, t) && |t.phases| == |jobs|
    requires CopiesInFlight(jobs, t.phases) < limit || Copies(jobs) < limit
    ensures AllDone(t)
  {
    var earlier :| Run(jobs, Start(jobs, limit), earlier, s);
    RunConcat(jobs, Start(jobs, limit), earlier, s, events, t);
    PermitsConserved(jobs, limit, t);
    HoldersInFlight(jobs, t.phases);
    FewCopiesNeverStick(jobs, limit, t);
  }

  // ---- The bound is sharp ----

  /** Let copies, taken in order, take their read permits until there are none left. */
  lemma {:induction false} CopiesStart(jobs: seq<Job>, limit: nat, s: State, i: nat) returns (t: State)
    requires Reachable(jobs, limit, s) && i <= |jobs| == |s.phases|
    requires s.free <= Copies(jobs[i..])
    requires forall k | i <= k < |jobs| :: s.phases[k] == Waiting
    requires forall k | 0 <= k < i :: s.phases[k] in {Waiting, Holding}
    ensures Reachable(jobs, limit, t) && t.free == 0
    ensures |t.phases| == |jobs| && forall k | 0 <= k < |jobs| :: t.phases[k] in {Waiting, Holding}
    decreases |jobs| - i
  {
    if s.free == 0 || i == |jobs| {
      t := s;
    } else {
      assert jobs[i..][1..] == jobs[i + 1..];
      if jobs[i].copy {
        ReachableStep(jobs, limit, s, Acquire(i));
        t := CopiesStart(jobs, limit, Apply(jobs, s, Acquire(i)), i + 1);
      } else {
        t := CopiesStart(jobs, limit, s, i + 1);
      }
    }
  }

  /** A set of transfers can deadlock exactly when it holds at least as many copies as there are permits. */
  lemma CanDeadlockIff(jobs: seq<Job>, limit: nat)
    requires limit > 0
    ensures (exists s :: Reachable(jobs, limit, s) && Stuck(jobs, s)) <==> limit <= Copies(jobs)
  {
    if limit <= Copies(jobs) {
      var s := Start(jobs, limit);
      assert Run(jobs, s, [], s);
      assert jobs[0..] == jobs;
      var t := CopiesStart(jobs, limit, s, 0);
      PermitsConserved(jobs, limit, t);
      HoldingOnly(t.phases);
      DeadlockIff(jobs, limit, t);
    } else {
      forall s | Reachable(jobs, limit, s)
        ensures !Stuck(jobs, s)
      {
        PermitsConserved(jobs, limit, s);
        HoldersInFlight(jobs, s.phases);
        FewCopiesNeverStick(jobs, limit, s);
      }
    }
  }

  /** With a single permit no copy ever moves a byte: it waits for a second permit that cannot exist. */
  lemma NoCopyAtLimitOne(jobs: seq<Job>, s: State, i: nat)
    requires Reachable(jobs, 1, s) && i < |jobs| && i < |s.phases|
    ensures !s.phases[i].Both?
  {
    PermitsConserved(jobs, 1, s);
    HeldAt(s.phases, i);
  }

  // ---- What moving takes ----

  /** A get or put never waits with a permit, and a copy whose read stream has ended has nothing left to move. */
  ghost predicate PhasesOk(jobs: seq<Job>, phases: seq<Phase>) {
    && |phases| == |jobs|
    && forall i | 0 <= i < |jobs| ::
         && (phases[i] == Holding || phases[i].Both? ==> jobs[i].copy)
         && (jobs[i].copy && phases[i].One? ==> phases[i].left == 0)
  }

  lemma {:induction false} RunKeepsPhases(jobs: seq<Job>, s: State, events: seq<Event>, t: State)
    requires PhasesOk(jobs, s.phases) && Run(jobs, s, events, t)
    ensures PhasesOk(jobs, t.phases)
    decreases events
  {
    if events != [] {
      RunKeepsPhases(jobs, Apply(jobs, s, events[0]), events[1..], t);
    }
  }

  /** Whoever moves a chunk holds the permits for it: two for a copy, which reads and writes, and one for a get or put. */
  lemma MovingHoldsPermits(jobs: seq<Job>, limit: nat, s: State, i: nat)
    requires Reachable(jobs, limit, s) && Enabled(jobs, s, Move(i))
    ensures Permits(s.phases[i]) == if jobs[i].copy then 2 else 1
  {
    var events :| Run(jobs, Start(jobs, limit), events, s);
    RunKeepsPhases(jobs, Start(jobs, limit), events, s);
  }

  function Moves(events: seq<Event>, i: nat): nat {
    if events == [] then 0 else (if events[0] == Move(i) then 1 else 0) + Moves(events[1..], i)
  }

  /** How many chunks a job has moved when it is in this phase, unless it was dropped. */
  function MovedBy(job: Job, p: Phase): int {
    match p
    case Waiting => 0
    case Holding => 0
    case Both(left) => job.work - left
    case One(left) => job.work - left
    case Done => job.work
  }

  lemma {:induction false} MovesAddUp(jobs: seq<Job>, s: State, events: seq<Event>, t: State, i: nat)
    requires Run(jobs, s, events, t) && i < |jobs| == |s.phases| && forall k | 0 <= k < |events| :: events[k] != Drop(i)
    ensures |t.phases| == |jobs| && MovedBy(jobs[i], s.phases[i]) + Moves(events, i) == MovedBy(jobs[i], t.phases[i])
    decreases events
  {
    if events != [] {
      assert events[0] != Drop(i);
      assert forall k | 0 <= k < |events| - 1 :: events[1..][k] == events[k + 1];
      MovesAddUp(jobs, Apply(jobs, s, events[0]), events[1..], t, i);
    }
  }

  /** A transfer that finishes without failure or cancellation has moved all its chunks, each of them once. */
  lemma FinishedMovedAll(jobs: seq<Job>, limit: nat, events: seq<Event>, t: State, i: nat)
    requires Run(jobs, Start(jobs, limit), events, t) && i < |jobs| && forall k | 0 <= k < |events| :: events[k] != Drop(i)
    requires i < |t.phases| && t.phases[i] == Done
    ensures Moves(events, i) == jobs[i].work
  {
    MovesAddUp(jobs, Start(jobs, limit), events, t, i);
  }
}
