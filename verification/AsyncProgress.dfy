// How many worker iterations a requested flush can take.

module AsyncProgress {
  import opened Basics
  import opened AsyncShared
  import opened AsyncProtocol
  import opened AsyncInvariants
  import opened AsyncTheorems

  // The popped record that still has to be counted in `processed`.
  function Item(w: Worker): Option<nat> {
    match w
    case Writing(item) => Some(item.sequence)
    case Failing(item, _) => Some(item.sequence)
    case Storing(item) => Some(item.sequence)
    case _ => None
  }

  // Queued or in-flight records numbered up to `requested`.
  function Outstanding(s: State): nat {
    (if Cursor(s) >= s.sh.requested then 0
     else if Cursor(s) < 0 then s.sh.requested
     else Min(|s.sh.events|, (s.sh.requested - Cursor(s)) as nat))
    + (if Item(s.worker).Some? && Item(s.worker).value <= s.sh.requested then 1 else 0)
  }

  // Records to process until `processed` reaches `requested`.
  function ToProcess(s: State): nat {
    var queued := if Cursor(s) < s.sh.requested then (s.sh.requested - Cursor(s)) as nat else 1;
    if s.sh.processed >= s.sh.requested then 0
    else if Item(s.worker).None? then queued
    else if Item(s.worker).value >= s.sh.requested then 1
    else 1 + queued
  }

  predicate IsRunning(w: Worker) {
    match w
    case Halting(_) => false
    case Finished(_) => false
    case Notifying(r) => r.Continue?
    case Taking(r) => r.Continue?
    case Waking(_, r) => r.Continue?
    case _ => true
  }

  // The part of an iteration before `processed` is read back.
  predicate IsBeforeCheck(w: Worker) {
    w.Top? || w.Deciding? || w.ParkedWorker? || w.Writing? || w.Failing? || w.Storing?
  }

  // The part in which this iteration can still start, or has started, its flush.
  predicate IsAroundFlush(w: Worker) {
    w.LoadingProcessed? || w.LoadingRequested? || w.Flushing? || w.Settling? || w.Publishing?
  }

  // Iterations that may still have to complete before the request is flushed.
  function Remaining(s: State): nat {
    if s.sh.flushed >= s.sh.requested then 0
    else if IsBeforeCheck(s.worker) then Max(ToProcess(s), 1)
    else if IsAroundFlush(s.worker) then 1 + ToProcess(s)
    else 1 + Max(ToProcess(s), 1)
  }

  predicate EndsIteration(s: State, a: Action) {
    a.WorkerStep? && s.worker.CheckingStop? && s.lock.Free? && !ShouldStop(s.sh)
  }

  // Steps that ask for no further flush and do not panic.
  predicate IsQuietAction(a: Action) {
    !a.FlushRaise? && !a.DropRequest? && !a.WorkerPanic?
  }

  // Records are processed in order, so the popped record is where `ToProcess` says.
  lemma StoreCounts(s: State)
    requires QueueOk(s) && PlaceOk(s) && s.worker.Storing? && s.sh.flushed < s.sh.requested
    ensures Remaining(Store(s, s.worker.item)) <= Remaining(s)
  {
  }

  lemma PopCounts(s: State)
    requires QueueOk(s) && PlaceOk(s) && s.worker.Top? && s.sh.events != [] && s.sh.flushed < s.sh.requested
    ensures Remaining(Pop(s)) <= Remaining(s)
  {
    assert s.sh.events[0].sequence == Cursor(s) + 1;
  }

  lemma EarlyStepCounts(s: State, outcome: Option<FlushError>, t: State)
    requires Ledger(s) && s.sh.requested <= s.sh.next && WorkerNext(s, outcome) == Some(t) && IsBeforeCheck(s.worker)
    requires t.sh.flushed < t.sh.requested
    ensures IsRunning(t.worker) && Remaining(t) <= Remaining(s)
  {
    if s.worker.Storing? {
      StoreCounts(s);
    } else if s.worker.Top? && s.sh.events != [] {
      PopCounts(s);
    } else {
      IdleIsProcessed(s);
      StillStepCounts(s, outcome, t);
    }
  }

  lemma StillStepCounts(s: State, outcome: Option<FlushError>, t: State)
    requires WorkerNext(s, outcome) == Some(t) && IsBeforeCheck(s.worker) && !s.worker.Storing?
    requires s.worker.Top? ==> s.sh.events == []
    requires s.worker.Deciding? ==> s.sh.events == []
    requires s.sh.events == [] && InFlight(s.worker).None? && HandedOver(s.worker).None? ==> s.sh.processed == s.sh.next
    requires s.sh.requested <= s.sh.next && t.sh.flushed < t.sh.requested
    ensures IsRunning(t.worker) && Remaining(t) <= Remaining(s)
  {
  }

  lemma LateStepCounts(s: State, outcome: Option<FlushError>, t: State)
    requires PlaceOk(s) && BooksOk(s) && WorkerNext(s, outcome) == Some(t) && IsRunning(s.worker) && !IsBeforeCheck(s.worker)
    requires s.sh.flushed <= s.sh.processed && s.sh.requested <= s.sh.next
    requires (s.sh.events == [] && InFlight(s.worker).None? ==> s.sh.processed == s.sh.next)
    requires t.sh.flushed < t.sh.requested
    ensures IsRunning(t.worker)
    ensures Remaining(t) + (if EndsIteration(s, WorkerStep(outcome)) then 1 else 0) <= Remaining(s)
  {
    if IsAroundFlush(s.worker) {
      FlushStepCounts(s, outcome, t);
    } else {
      NotifyStepCounts(s, outcome, t);
    }
  }

  lemma FlushStepCounts(s: State, outcome: Option<FlushError>, t: State)
    requires WorkerNext(s, outcome) == Some(t) && IsAroundFlush(s.worker)
    requires LocalProcessed(s.worker).Some? ==> LocalProcessed(s.worker).value == s.sh.processed
    requires s.sh.flushed <= s.sh.processed && t.sh.flushed < t.sh.requested
    ensures IsRunning(t.worker) && Remaining(t) <= Remaining(s)
  {
  }

  lemma NotifyStepCounts(s: State, outcome: Option<FlushError>, t: State)
    requires WorkerNext(s, outcome) == Some(t) && IsRunning(s.worker)
    requires !IsBeforeCheck(s.worker) && !IsAroundFlush(s.worker)
    requires IsDraining(s.worker) ==> s.sh.shutdown && s.sh.events == []
    requires LocalProcessed(s.worker).Some? ==> LocalProcessed(s.worker).value == s.sh.processed
    requires s.sh.flushed <= s.sh.processed && s.sh.requested <= s.sh.next
    requires (s.sh.events == [] && InFlight(s.worker).None? ==> s.sh.processed == s.sh.next)
    requires t.sh.flushed < t.sh.requested
    ensures IsRunning(t.worker)
    ensures Remaining(t) + (if EndsIteration(s, WorkerStep(outcome)) then 1 else 0) <= Remaining(s)
  {
  }

  // Until the request is flushed, the worker keeps running and `Remaining` goes
  // down by the iterations it completes.
  lemma WorkerStepCounts(s: State, outcome: Option<FlushError>, t: State)
    requires Inv(s) && WorkerNext(s, outcome) == Some(t) && IsRunning(s.worker)
    requires t.sh.flushed < t.sh.requested
    ensures IsRunning(t.worker)
    ensures Remaining(t) + (if EndsIteration(s, WorkerStep(outcome)) then 1 else 0) <= Remaining(s)
  {
    if IsBeforeCheck(s.worker) {
      EarlyStepCounts(s, outcome, t);
    } else {
      IdleIsProcessed(s);
      LateStepCounts(s, outcome, t);
    }
  }

  // Emitters cannot add to what is left to do: they append beyond the request and
  // overwrite from the front.
  lemma FinishCounts(s: State)
    requires QueueOk(s) && s.lock.EmitHeld?
    ensures Remaining(FinishEmit(s)) <= Remaining(s)
    ensures FinishEmit(s).sh.requested == s.sh.requested && FinishEmit(s).sh.flushed == s.sh.flushed
  {
  }

  lemma OtherStepCounts(s: State, a: Action, t: State)
    requires QueueOk(s) && Step(s, a) == Some(t) && !a.WorkerStep? && IsQuietAction(a)
    ensures t.worker == s.worker && Remaining(t) <= Remaining(s)
    ensures t.sh.requested == s.sh.requested && t.sh.flushed == s.sh.flushed
  {
    match a
    case EmitFinish => FinishCounts(s);
    case BarrierStep(id) =>
      BarrierTouches(s, id, t);
      SameCounts(s, t);
    case _ =>
      CallerFrames(s, a, t);
      QuietCallerRequests(s, a, t);
      SameCounts(s, t);
  }

  lemma QuietCallerRequests(s: State, a: Action, t: State)
    requires Step(s, a) == Some(t) && IsCallerStep(a) && IsQuietAction(a)
    ensures t.sh.requested == s.sh.requested
  {
  }

  lemma SameCounts(s: State, t: State)
    requires t.worker == s.worker && t.sh.events == s.sh.events && t.sh.next == s.sh.next
    requires t.sh.processed == s.sh.processed && t.sh.requested == s.sh.requested && t.sh.flushed == s.sh.flushed
    ensures Remaining(t) == Remaining(s)
  {
  }

  // Worker iterations completed along a run.
  function Ended(s: State, acts: seq<Action>): nat
    decreases |acts|
  {
    if acts == [] then 0
    else
      var before := Replay(s, acts[..|acts| - 1]);
      Ended(s, acts[..|acts| - 1])
      + (if before.Some? && EndsIteration(before.value, acts[|acts| - 1]) then 1 else 0)
  }

  lemma {:induction false} RunCounts(s: State, acts: seq<Action>, t: State)
    requires Inv(s) && IsRunning(s.worker) && Replay(s, acts) == Some(t)
    requires forall i :: 0 <= i < |acts| ==> IsQuietAction(acts[i])
    ensures t.sh.requested == s.sh.requested
    ensures t.sh.flushed < t.sh.requested ==> IsRunning(t.worker) && Remaining(t) + Ended(s, acts) <= Remaining(s)
    decreases |acts|
  {
    if acts != [] {
      var a := acts[|acts| - 1];
      var m := Replay(s, acts[..|acts| - 1]).value;
      RunCounts(s, acts[..|acts| - 1], m);
      ReplayKeeps(s, acts[..|acts| - 1], m);
      OneStepCounts(m, a, t);
    }
  }

  lemma RequestedIsStable(s: State, outcome: Option<FlushError>, t: State)
    requires FlushesOk(s) && PlaceOk(s) && WorkerNext(s, outcome) == Some(t)
    ensures t.sh.requested == s.sh.requested && t.sh.flushed >= s.sh.flushed
  {
    if IsFlushStep(s.worker) {
      FlushStepKeepsRequest(s, outcome, t);
    } else {
      PlainStepKeepsRequest(s, outcome, t);
    }
  }

  lemma FlushStepKeepsRequest(s: State, outcome: Option<FlushError>, t: State)
    requires WorkerNext(s, outcome) == Some(t) && IsFlushStep(s.worker) && s.sh.flushed <= s.sh.processed
    requires LocalProcessed(s.worker).Some? ==> LocalProcessed(s.worker).value == s.sh.processed
    ensures t.sh.requested == s.sh.requested && t.sh.flushed >= s.sh.flushed
  {
  }

  lemma PlainStepKeepsRequest(s: State, outcome: Option<FlushError>, t: State)
    requires WorkerNext(s, outcome) == Some(t) && !IsFlushStep(s.worker)
    ensures t.sh.requested == s.sh.requested && t.sh.flushed == s.sh.flushed
  {
  }

  lemma OneStepCounts(s: State, a: Action, t: State)
    requires Inv(s) && Step(s, a) == Some(t) && IsQuietAction(a)
    ensures t.sh.requested == s.sh.requested && t.sh.flushed >= s.sh.flushed
    ensures IsRunning(s.worker) && t.sh.flushed < t.sh.requested ==>
      IsRunning(t.worker) && Remaining(t) + (if EndsIteration(s, a) then 1 else 0) <= Remaining(s)
  {
    if a.WorkerStep? {
      RequestedIsStable(s, a.outcome, t);
      if IsRunning(s.worker) && t.sh.flushed < t.sh.requested {
        WorkerStepCounts(s, a.outcome, t);
      }
    } else {
      OtherStepCounts(s, a, t);
    }
  }

  // With a running worker and no new request, completing one iteration more than
  // there are outstanding records flushes the request, whatever the emitters and
  // barriers do in between; one more still if the worker is in mid-iteration.
  lemma RequestGetsFlushed(
      start: State, capacity: nat, overflow: OverflowPolicy, before: seq<Action>, acts: seq<Action>, s: State)
    requires Reachable(start, capacity, overflow, before) && IsRunning(start.worker)
    requires Replay(start, acts) == Some(s)
    requires forall i :: 0 <= i < |acts| ==> IsQuietAction(acts[i])
    requires Ended(start, acts) >= Outstanding(start) + (if start.worker.Top? then 1 else 2)
    ensures s.sh.requested == start.sh.requested <= s.sh.flushed
  {
    ReachableInv(start, capacity, overflow, before);
    FlushedByThen(start, acts, s);
  }

  lemma FlushedByThen(start: State, acts: seq<Action>, s: State)
    requires Inv(start) && IsRunning(start.worker)
    requires forall i :: 0 <= i < |acts| ==> IsQuietAction(acts[i])
    ensures Replay(start, acts) == Some(s) ==>
      (Ended(start, acts) >= Outstanding(start) + (if start.worker.Top? then 1 else 2) ==>
         s.sh.requested == start.sh.requested <= s.sh.flushed)
  {
    if Replay(start, acts) == Some(s) {
      RunCounts(start, acts, s);
    }
    RemainingBound(start);
    if Replay(start, acts) == Some(s) && s.sh.flushed < s.sh.requested {
      ReplayKeeps(start, acts, s);
      RequestedIsIssued(s);
    }
  }

  lemma RequestedIsIssued(s: State)
    requires Inv(s)
    ensures s.sh.requested <= s.sh.next
    ensures s.sh.flushed < s.sh.requested ==> Remaining(s) >= 1
  {
  }

  lemma RemainingBound(s: State)
    requires Inv(s) && IsRunning(s.worker)
    ensures Remaining(s) <= Outstanding(s) + (if s.worker.Top? then 1 else 2)
  {
    IdleIsProcessed(s);
    BoundFromQueue(s);
  }

  lemma BoundFromQueue(s: State)
    requires QueueOk(s) && PlaceOk(s) && IsRunning(s.worker) && s.sh.requested <= s.sh.next
    requires s.sh.events == [] && InFlight(s.worker).None? && HandedOver(s.worker).None? ==> s.sh.processed == s.sh.next
    ensures Remaining(s) <= Outstanding(s) + (if s.worker.Top? then 1 else 2)
  {
  }
}
