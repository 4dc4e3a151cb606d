// When the verdict that the worker stopped first is right, and exactly when it is not.

module AsyncStopVerdict {
  import opened Basics
  import opened AsyncShared
  import opened AsyncProtocol
  import opened AsyncInvariants
  import opened AsyncVerdicts
  import opened AsyncTheorems

  // The evaluation fell short of its target and then found the sink stopped. (A writer
  // may fail with the very same error; that is reported from the slots.)
  predicate SaysStopped(b: Barrier) {
    b.pc == Done(Some(StoppedEarly())) && b.look.Looked? && !b.look.covered
  }

  // An evaluation that began after the stop says so exactly when its target was never
  // flushed; otherwise it answers from the error slots.
  lemma LateEvaluationIsRight(s: State, capacity: nat, overflow: OverflowPolicy, acts: seq<Action>, id: nat)
    requires Reachable(s, capacity, overflow, acts) && id in s.barriers && s.barriers[id].pc.Done?
    requires s.barriers[id].look.Looked? && s.barriers[id].look.stopSeen
    ensures SaysStopped(s.barriers[id]) <==> s.barriers[id].target > s.sh.flushed
    ensures s.barriers[id].target <= s.sh.flushed ==> SlotsSay(s, s.barriers[id].target, s.barriers[id].pc.verdict)
  {
    ReachableInv(s, capacity, overflow, acts);
    LateVerdict(s, s.barriers[id]);
  }

  lemma LateVerdict(s: State, b: Barrier)
    requires VerdictOk(s, b) && b.pc.Done? && b.look.Looked? && b.look.stopSeen
    ensures SaysStopped(b) <==> b.target > s.sh.flushed
    ensures b.target <= s.sh.flushed ==> SlotsSay(s, b.target, b.pc.verdict)
  {
  }

  // ---- what every step does with `flushed` and `stopped` ----

  predicate Grows(s: State, t: State) {
    s.sh.flushed <= t.sh.flushed && (s.sh.stopped ==> t.sh.stopped && t.sh.flushed == s.sh.flushed)
  }

  predicate IsPublishing(s: State, a: Action) {
    a.WorkerStep? && (s.worker.Publishing? || s.worker.FinalPublishing?)
  }

  predicate IsHalting(s: State, a: Action) {
    a.WorkerStep? && s.worker.Halting?
  }

  // Neither is taken back, nothing is flushed after the stop, and only the worker moves
  // either, never both in one step.
  predicate MovesOn(s: State, a: Action, t: State) {
    && Grows(s, t)
    && (t.sh.flushed != s.sh.flushed ==> IsPublishing(s, a))
    && (t.sh.stopped != s.sh.stopped ==> IsHalting(s, a))
  }

  lemma StepMovesOn(s: State, a: Action, t: State)
    requires Inv(s) && Step(s, a) == Some(t)
    ensures Inv(t) && MovesOn(s, a, t)
  {
    InvKept(s, a, t);
    MarksGrow(s, a, t);
    WhoMoves(s, a, t);
  }

  lemma WhoMoves(s: State, a: Action, t: State)
    requires Step(s, a) == Some(t)
    ensures t.sh.flushed != s.sh.flushed ==> IsPublishing(s, a)
    ensures t.sh.stopped != s.sh.stopped ==> IsHalting(s, a)
  {
    if a.WorkerStep? {
      WorkerPublishes(s, a.outcome, t);
    } else {
      QuietSteps(s, a, t);
    }
  }

  lemma WorkerPublishes(s: State, outcome: Option<FlushError>, t: State)
    requires WorkerNext(s, outcome) == Some(t)
    ensures t.sh.flushed != s.sh.flushed ==> s.worker.Publishing? || s.worker.FinalPublishing?
    ensures t.sh.stopped != s.sh.stopped ==> s.worker.Halting?
  {
    if IsFlushStep(s.worker) {
      FlushPublishes(s, outcome, t);
    } else {
      PlainStepGrows(s, outcome, t);
    }
  }

  lemma FlushPublishes(s: State, outcome: Option<FlushError>, t: State)
    requires WorkerNext(s, outcome) == Some(t) && IsFlushStep(s.worker)
    ensures t.sh.flushed != s.sh.flushed ==> s.worker.Publishing? || s.worker.FinalPublishing?
    ensures t.sh.stopped != s.sh.stopped ==> s.worker.Halting?
  {
  }

  // ---- runs, without looking into the steps ----

  type Stepper = (State, Action) -> Option<State>

  function Run(next: Stepper, s: State, acts: seq<Action>): Option<State>
    decreases |acts|
  {
    if acts == [] then Some(s)
    else
      var before := Run(next, s, acts[..|acts| - 1]);
      if before.None? then None else next(before.value, acts[|acts| - 1])
  }

  lemma {:induction false} ReplayIsRun(s: State, acts: seq<Action>)
    ensures Replay(s, acts) == Run(Step, s, acts)
    decreases |acts|
  {
    if acts != [] {
      ReplayIsRun(s, acts[..|acts| - 1]);
    }
  }

  lemma RunOneMore(next: Stepper, s: State, acts: seq<Action>, k: nat)
    requires k < |acts|
    ensures Run(next, s, acts[..k + 1])
      == if Run(next, s, acts[..k]).None? then None else next(Run(next, s, acts[..k]).value, acts[k])
  {
    assert acts[..k + 1][..k] == acts[..k];
  }

  lemma {:induction false} PrefixRuns(next: Stepper, s: State, acts: seq<Action>, k: nat)
    requires Run(next, s, acts).Some? && k <= |acts|
    ensures Run(next, s, acts[..k]).Some?
    decreases |acts| - k
  {
    if k == |acts| {
      assert acts[..k] == acts;
    } else {
      PrefixRuns(next, s, acts, k + 1);
      RunOneMore(next, s, acts, k);
    }
  }

  ghost predicate Lawful(next: Stepper, inv: State -> bool) {
    forall s, a | inv(s) && next(s, a).Some? :: inv(next(s, a).value) && MovesOn(s, a, next(s, a).value)
  }

  lemma StepIsLawful() returns (inv: State -> bool)
    ensures Lawful(Step, inv) && forall s :: inv(s) <==> Inv(s)
  {
    inv := s => Inv(s);
    forall s, a | inv(s) && Step(s, a).Some? ensures inv(Step(s, a).value) && MovesOn(s, a, Step(s, a).value) {
      StepMovesOn(s, a, Step(s, a).value);
    }
  }

  lemma {:induction false} PrefixKeeps(next: Stepper, inv: State -> bool, s: State, acts: seq<Action>, k: nat)
    requires Lawful(next, inv) && inv(s) && k <= |acts| && Run(next, s, acts[..k]).Some?
    ensures inv(Run(next, s, acts[..k]).value)
    decreases k
  {
    if k > 0 {
      RunOneMore(next, s, acts, k - 1);
      PrefixKeeps(next, inv, s, acts, k - 1);
    }
  }

  // The states along a run.
  ghost predicate IsTrace(run: nat -> State, acts: seq<Action>) {
    forall i: nat | i < |acts| :: MovesOn(run(i), acts[i], run(i + 1))
  }

  lemma TraceOf(next: Stepper, inv: State -> bool, s: State, acts: seq<Action>) returns (run: nat -> State)
    requires Lawful(next, inv) && inv(s) && Run(next, s, acts).Some?
    ensures forall k: nat | k <= |acts| :: Run(next, s, acts[..k]) == Some(run(k))
    ensures IsTrace(run, acts)
  {
    run := (k: nat) => if k <= |acts| && Run(next, s, acts[..k]).Some? then Run(next, s, acts[..k]).value else s;
    forall k: nat | k <= |acts| ensures Run(next, s, acts[..k]) == Some(run(k)) && inv(run(k)) {
      PrefixRuns(next, s, acts, k);
      PrefixKeeps(next, inv, s, acts, k);
    }
    forall i: nat | i < |acts| ensures MovesOn(run(i), acts[i], run(i + 1)) {
      RunOneMore(next, s, acts, i);
    }
  }

  lemma ReplayTrace(s: State, acts: seq<Action>) returns (run: nat -> State)
    requires Inv(s) && Replay(s, acts).Some?
    ensures forall k: nat | k <= |acts| :: Replay(s, acts[..k]) == Some(run(k))
    ensures IsTrace(run, acts)
  {
    var inv := StepIsLawful();
    ReplayIsRun(s, acts);
    run := TraceOf(Step, inv, s, acts);
    forall k: nat | k <= |acts| ensures Replay(s, acts[..k]) == Some(run(k)) {
      ReplayIsRun(s, acts[..k]);
    }
  }

  lemma {:induction false} TraceGrows(run: nat -> State, acts: seq<Action>, i: nat, j: nat)
    requires IsTrace(run, acts) && i <= j <= |acts|
    ensures Grows(run(i), run(j))
    decreases j
  {
    if i < j {
      TraceGrows(run, acts, i, j - 1);
      assert MovesOn(run(j - 1), acts[j - 1], run(j - 1 + 1));
    }
  }

  // Once the sink has stopped, nothing more is ever flushed.
  lemma FlushedIsFinal(
      s: State, capacity: nat, overflow: OverflowPolicy, before: seq<Action>, after: seq<Action>, t: State)
    requires Reachable(s, capacity, overflow, before) && s.sh.stopped && Replay(s, after) == Some(t)
    ensures t.sh.stopped && t.sh.flushed == s.sh.flushed
  {
    ReachableInv(s, capacity, overflow, before);
    GrowsAlong(s, after, t);
  }

  lemma GrowsAlong(s: State, acts: seq<Action>, t: State)
    requires Inv(s) && Replay(s, acts) == Some(t)
    ensures Grows(s, t)
  {
    var run := ReplayTrace(s, acts);
    TraceEnds(s, acts, run);
    TraceGrows(run, acts, 0, |acts|);
  }

  lemma TraceEnds(s: State, acts: seq<Action>, run: nat -> State)
    requires forall k: nat | k <= |acts| :: Replay(s, acts[..k]) == Some(run(k))
    ensures run(0) == s && Replay(s, acts) == Some(run(|acts|))
  {
    assert acts[..0] == [] && acts[..|acts|] == acts;
    assert Replay(s, acts[..0]) == Some(run(0)) && Replay(s, acts[..|acts|]) == Some(run(|acts|));
  }

  // ---- what makes the sink stop ----

  predicate IsStopping(s: State) {
    s.sh.stopped || s.worker.Halting? || IsExit(s.worker) || IsDraining(s.worker)
  }

  lemma StoppingHasACause(s: State, a: Action, t: State)
    requires Step(s, a) == Some(t) && !a.WorkerPanic?
    ensures s.sh.shutdown ==> t.sh.shutdown
    ensures IsStopping(t) ==> IsStopping(s) || t.sh.shutdown
  {
    match a
    case WorkerStep(outcome) => WorkerStopsForACause(s, outcome, t);
    case BarrierStep(id) => BarrierTouches(s, id, t);
    case EmitFinish =>
    case _ => CallerFrames(s, a, t);
  }

  lemma WorkerStopsForACause(s: State, outcome: Option<FlushError>, t: State)
    requires WorkerNext(s, outcome) == Some(t)
    ensures t.sh.shutdown == s.sh.shutdown
    ensures IsStopping(t) ==> IsStopping(s) || t.sh.shutdown
  {
    if IsFlushStep(s.worker) {
      FlushStopsForACause(s, outcome, t);
    } else if IsTelling(s.worker) {
      TellingStopsNothing(s, outcome, t);
    } else {
      RestStopsForACause(s, outcome, t);
    }
  }

  lemma FlushStopsForACause(s: State, outcome: Option<FlushError>, t: State)
    requires WorkerNext(s, outcome) == Some(t) && IsFlushStep(s.worker)
    ensures t.sh.shutdown == s.sh.shutdown && (IsStopping(t) ==> IsStopping(s))
  {
  }

  lemma TellingStopsNothing(s: State, outcome: Option<FlushError>, t: State)
    requires WorkerNext(s, outcome) == Some(t) && IsTelling(s.worker)
    ensures t.sh.shutdown == s.sh.shutdown && (IsStopping(t) ==> IsStopping(s))
  {
  }

  lemma RestStopsForACause(s: State, outcome: Option<FlushError>, t: State)
    requires WorkerNext(s, outcome) == Some(t) && !IsFlushStep(s.worker) && !IsTelling(s.worker)
    ensures t.sh.shutdown == s.sh.shutdown
    ensures IsStopping(t) ==> IsStopping(s) || t.sh.shutdown
  {
    if s.worker.CheckingStop? {
      CheckStopsForACause(s, outcome, t);
    }
  }

  lemma CheckStopsForACause(s: State, outcome: Option<FlushError>, t: State)
    requires WorkerNext(s, outcome) == Some(t) && s.worker.CheckingStop?
    ensures t.sh.shutdown == s.sh.shutdown
    ensures IsStopping(t) ==> IsStopping(s) || t.sh.shutdown
  {
  }

  lemma {:induction false} StoppingRun(s: State, capacity: nat, overflow: OverflowPolicy, acts: seq<Action>)
    requires Reachable(s, capacity, overflow, acts)
    ensures IsStopping(s) ==> s.sh.shutdown || WorkerPanic in acts
    decreases |acts|
  {
    if acts != [] {
      var n := |acts| - 1;
      var last := Replay(Init(capacity, overflow), acts[..n]).value;
      StoppingRun(last, capacity, overflow, acts[..n]);
      if !acts[n].WorkerPanic? {
        StoppingHasACause(last, acts[n], s);
      }
    }
  }

  // The sink stops only after the last handle was dropped or the writer panicked.
  lemma StopHasACause(s: State, capacity: nat, overflow: OverflowPolicy, acts: seq<Action>)
    requires Reachable(s, capacity, overflow, acts) && s.sh.stopped
    ensures s.handles != Open || WorkerPanic in acts
  {
    StoppingRun(s, capacity, overflow, acts);
    ReachableInv(s, capacity, overflow, acts);
  }

  // ---- the two steps that must fall between the loads ----

  predicate Publishes(s: State, a: Action, t: State, target: nat) {
    IsPublishing(s, a) && s.sh.flushed < target <= t.sh.flushed
  }

  predicate Stops(s: State, a: Action, t: State) {
    IsHalting(s, a) && !s.sh.stopped && t.sh.stopped
  }

  // Step `k` of a run publishes the target, or stops the sink.
  predicate PublishesAt(s: State, acts: seq<Action>, k: nat, target: nat) {
    && k < |acts| && Replay(s, acts[..k]).Some? && Replay(s, acts[..k + 1]).Some?
    && Publishes(Replay(s, acts[..k]).value, acts[k], Replay(s, acts[..k + 1]).value, target)
  }

  predicate StopsAt(s: State, acts: seq<Action>, k: nat) {
    && k < |acts| && Replay(s, acts[..k]).Some? && Replay(s, acts[..k + 1]).Some?
    && Stops(Replay(s, acts[..k]).value, acts[k], Replay(s, acts[..k + 1]).value)
  }

  lemma {:induction false} SomeStepPublishes(run: nat -> State, acts: seq<Action>, n: nat, target: nat)
    returns (k: nat)
    requires IsTrace(run, acts) && n <= |acts| && run(0).sh.flushed < target <= run(n).sh.flushed
    ensures k < n && Publishes(run(k), acts[k], run(k + 1), target)
  {
    assert MovesOn(run(n - 1), acts[n - 1], run(n - 1 + 1));
    k := n - 1;
    if run(n - 1).sh.flushed >= target {
      k := SomeStepPublishes(run, acts, n - 1, target);
    }
  }

  // If the target is flushed and the sink stopped in the course of a run, it happened
  // in this order.
  lemma {:induction false} FlushedThenStopped(run: nat -> State, acts: seq<Action>, n: nat, target: nat)
    returns (k: nat, m: nat)
    requires IsTrace(run, acts) && n <= |acts|
    requires run(0).sh.flushed < target <= run(n).sh.flushed && !run(0).sh.stopped && run(n).sh.stopped
    ensures k < m < n && Publishes(run(k), acts[k], run(k + 1), target) && Stops(run(m), acts[m], run(m + 1))
  {
    assert MovesOn(run(n - 1), acts[n - 1], run(n - 1 + 1));
    if run(n - 1).sh.stopped {
      k, m := FlushedThenStopped(run, acts, n - 1, target);
    } else {
      k := SomeStepPublishes(run, acts, n - 1, target);
      m := n - 1;
    }
  }

  // ---- one evaluation, from its load of `flushed` to its load of `stopped` ----

  ghost predicate Between(id: nat, acts: seq<Action>) {
    forall i | 0 <= i < |acts| :: acts[i] != BarrierStep(id)
  }

  // Nothing but the evaluation's own step moves it on.
  lemma StillLooking(s: State, a: Action, t: State, id: nat)
    requires Step(s, a) == Some(t) && a != BarrierStep(id) && id in s.barriers && s.barriers[id].pc.LoadStopped?
    ensures id in t.barriers && t.barriers[id].pc.LoadStopped?
    ensures t.barriers[id].target == s.barriers[id].target && t.barriers[id].look == s.barriers[id].look
  {
    match a
    case BarrierStep(other) => BarrierTouches(s, other, t);
    case WorkerStep(outcome) => WorkerWaits(s, outcome, t, id);
    case _ =>
  }

  lemma WorkerWaits(s: State, outcome: Option<FlushError>, t: State, id: nat)
    requires WorkerNext(s, outcome) == Some(t) && id in s.barriers && s.barriers[id].pc.LoadStopped?
    ensures id in t.barriers && t.barriers[id].pc.LoadStopped?
    ensures t.barriers[id].target == s.barriers[id].target && t.barriers[id].look == s.barriers[id].look
  {
    if !s.worker.Notifying? && !s.worker.Waking? {
      assert t.barriers == s.barriers;
    }
  }

  lemma {:induction false} EvaluationWaits(s: State, acts: seq<Action>, t: State, id: nat)
    requires Replay(s, acts) == Some(t) && Between(id, acts) && id in s.barriers && s.barriers[id].pc.LoadStopped?
    ensures id in t.barriers && t.barriers[id].pc.LoadStopped?
    ensures t.barriers[id].target == s.barriers[id].target && t.barriers[id].look == s.barriers[id].look
    decreases |acts|
  {
    if acts != [] {
      var n := |acts| - 1;
      var last := Replay(s, acts[..n]).value;
      EvaluationWaits(s, acts[..n], last, id);
      StillLooking(last, acts[n], t, id);
    }
  }

  lemma SecondLoad(t: State, id: nat, u: State)
    requires id in t.barriers && t.barriers[id].pc.LoadStopped? && Step(t, BarrierStep(id)) == Some(u)
    requires t.barriers[id].look.Looked? && !t.barriers[id].look.covered
    ensures id in u.barriers && u.sh.flushed == t.sh.flushed && u.barriers[id].target == t.barriers[id].target
    ensures SaysStopped(u.barriers[id]) <==> t.sh.stopped
  {
  }

  lemma FirstLoad(s: State, id: nat, r: State)
    requires id in s.barriers && s.barriers[id].pc.LoadFlushed? && Step(s, BarrierStep(id)) == Some(r)
    requires s.sh.flushed < s.barriers[id].target
    ensures id in r.barriers && r.barriers[id].pc.LoadStopped? && r.barriers[id].target == s.barriers[id].target
    ensures r.barriers[id].look == Looked(false, s.sh.stopped) && r.sh == s.sh
  {
  }

  // For every evaluation whose first load, leading to `r`, falls short, and whatever
  // happens before its second, leading to `u`: it says that the sink stopped exactly
  // when the sink has; and that is a false alarm, the target being flushed after all,
  // exactly when the worker published the target and then stopped between the loads.
  lemma StopVerdictExact(
      s: State, capacity: nat, overflow: OverflowPolicy, before: seq<Action>, id: nat,
      r: State, between: seq<Action>, t: State, u: State)
    requires Reachable(s, capacity, overflow, before)
    requires id in s.barriers && s.barriers[id].pc.LoadFlushed? && s.sh.flushed < s.barriers[id].target
    requires Step(s, BarrierStep(id)) == Some(r)
    requires Between(id, between) && Replay(r, between) == Some(t)
    requires Step(t, BarrierStep(id)) == Some(u)
    ensures id in u.barriers && u.barriers[id].target == s.barriers[id].target
    ensures SaysStopped(u.barriers[id]) <==> t.sh.stopped
    ensures SaysStopped(u.barriers[id]) && s.barriers[id].target <= u.sh.flushed <==>
      exists k, m :: 0 <= k < m && PublishesAt(r, between, k, s.barriers[id].target) && StopsAt(r, between, m)
  {
    ReachableInv(s, capacity, overflow, before);
    InvKept(s, BarrierStep(id), r);
    FirstLoad(s, id, r);
    EvaluationWaits(r, between, t, id);
    SecondLoad(t, id, u);
    StopVerdictIff(r, between, t, s.barriers[id].target);
  }

  lemma StopVerdictIff(r: State, between: seq<Action>, t: State, target: nat)
    requires Inv(r) && Replay(r, between) == Some(t) && r.sh.flushed < target
    ensures t.sh.stopped && target <= t.sh.flushed <==>
      exists k, m :: 0 <= k < m && PublishesAt(r, between, k, target) && StopsAt(r, between, m)
  {
    var run := ReplayTrace(r, between);
    TraceEnds(r, between, run);
    if t.sh.stopped && target <= t.sh.flushed {
      var k, m := BothAt(r, between, run, target);
    }
    if k, m :| 0 <= k < m && PublishesAt(r, between, k, target) && StopsAt(r, between, m) {
      BothHappened(r, between, run, target, k, m);
    }
  }

  lemma BothAt(r: State, acts: seq<Action>, run: nat -> State, target: nat) returns (k: nat, m: nat)
    requires IsTrace(run, acts) && forall i: nat | i <= |acts| :: Replay(r, acts[..i]) == Some(run(i))
    requires run(0).sh.flushed < target <= run(|acts|).sh.flushed && run(|acts|).sh.stopped
    ensures k < m && PublishesAt(r, acts, k, target) && StopsAt(r, acts, m)
  {
    TraceGrows(run, acts, 0, |acts|);
    k, m := FlushedThenStopped(run, acts, |acts|, target);
  }

  lemma BothHappened(r: State, acts: seq<Action>, run: nat -> State, target: nat, k: nat, m: nat)
    requires IsTrace(run, acts) && forall i: nat | i <= |acts| :: Replay(r, acts[..i]) == Some(run(i))
    requires PublishesAt(r, acts, k, target) && StopsAt(r, acts, m)
    ensures target <= run(|acts|).sh.flushed && run(|acts|).sh.stopped
  {
    TraceGrows(run, acts, k + 1, |acts|);
    TraceGrows(run, acts, m + 1, |acts|);
  }
}
