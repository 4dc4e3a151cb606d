// What the two overflow policies do with a full queue, and what the counters have
// counted, over every run of the protocol.

module AsyncAdmission {
  import opened Basics
  import opened Facade
  import opened AsyncShared
  import opened AsyncProtocol
  import opened AsyncInvariants
  import opened AsyncStopVerdict
  import AsyncTheorems

  // ---- the policy a sink was built with ----

  predicate BuiltWith(s: State, capacity: nat, overflow: OverflowPolicy) {
    && s.sh.capacity == capacity && s.sh.overflow == overflow
    && (overflow == DropNewest ==> s.hist.losses == map[] && s.sh.stats.overwritten == 0)
  }

  predicate SameBuild(s: State, t: State) {
    && t.sh.capacity == s.sh.capacity && t.sh.overflow == s.sh.overflow
    && t.hist.losses == s.hist.losses && t.sh.stats.overwritten == s.sh.stats.overwritten
  }

  lemma FinishKeepsBuild(s: State, capacity: nat, overflow: OverflowPolicy)
    requires s.lock.EmitHeld? && BuiltWith(s, capacity, overflow)
    ensures BuiltWith(FinishEmit(s), capacity, overflow)
  {
  }

  lemma WorkerKeepsBuild(s: State, outcome: Option<FlushError>, t: State)
    requires WorkerNext(s, outcome) == Some(t)
    ensures SameBuild(s, t)
  {
    match s.worker
    case Settling(processed, result, at) =>
    case Writing(item) =>
    case Taking(resume) =>
    case Waking(left, resume) =>
    case CheckingStop(processed) =>
    case _ =>
  }

  lemma BarrierKeepsBuild(s: State, id: nat, t: State)
    requires id in s.barriers && BarrierNext(s, id) == Some(t)
    ensures SameBuild(s, t)
  {
  }

  lemma StepKeepsBuild(s: State, a: Action, t: State, capacity: nat, overflow: OverflowPolicy)
    requires BuiltWith(s, capacity, overflow) && Step(s, a) == Some(t)
    ensures BuiltWith(t, capacity, overflow)
  {
    match a
    case EmitFinish => FinishKeepsBuild(s, capacity, overflow);
    case WorkerStep(outcome) => WorkerKeepsBuild(s, outcome, t);
    case BarrierStep(id) => BarrierKeepsBuild(s, id, t);
    case EmitRefused => EmitKeepsBuild(s, a, t);
    case EmitAdmit(_) => EmitKeepsBuild(s, a, t);
    case EmitContended(_) => EmitKeepsBuild(s, a, t);
    case EmitBegin(_) => EmitKeepsBuild(s, a, t);
    case _ => CallerKeepsBuild(s, a, t);
  }

  lemma EmitKeepsBuild(s: State, a: Action, t: State)
    requires a.EmitRefused? || a.EmitAdmit? || a.EmitContended? || a.EmitBegin?
    requires Step(s, a) == Some(t)
    ensures SameBuild(s, t)
  {
  }

  lemma CallerKeepsBuild(s: State, a: Action, t: State)
    requires !a.EmitRefused? && !a.EmitAdmit? && !a.EmitContended? && !a.EmitBegin?
    requires !a.WorkerStep? && !a.BarrierStep? && !a.EmitFinish? && Step(s, a) == Some(t)
    ensures SameBuild(s, t)
  {
  }

  lemma {:induction false} RunKeepsBuild(s: State, capacity: nat, overflow: OverflowPolicy, acts: seq<Action>)
    requires Replay(Init(capacity, overflow), acts) == Some(s)
    ensures BuiltWith(s, capacity, overflow)
    decreases |acts|
  {
    if acts != [] {
      var before := Replay(Init(capacity, overflow), acts[..|acts| - 1]).value;
      RunKeepsBuild(before, capacity, overflow, acts[..|acts| - 1]);
      StepKeepsBuild(before, acts[|acts| - 1], s, capacity, overflow);
    }
  }

  // A sink that drops the newest record never loses one it has accepted.
  lemma DropNewestLosesNothing(s: State, capacity: nat, acts: seq<Action>)
    requires Reachable(s, capacity, DropNewest, acts)
    ensures s.hist.losses == map[] && s.sh.stats.overwritten == 0
  {
    RunKeepsBuild(s, capacity, DropNewest, acts);
  }

  // ---- the three ends of the emit section ----

  // The offered record takes the next number at the back of `kept`.
  predicate Enters(s: State, t: State, kept: seq<QueuedEvent>) {
    && s.lock.EmitHeld?
    && t.sh.events == kept + [QueuedEvent(s.sh.next + 1, s.lock.event)] && t.sh.next == s.sh.next + 1
    && t.hist.accepted == s.hist.accepted + [s.lock.event]
  }

  // The offered record is gone and nothing else is.
  predicate Refused(s: State, t: State) {
    && t.sh == s.sh.(stats := s.sh.stats.(dropped := s.sh.stats.dropped + 1))
    && t.hist == s.hist
  }

  // What an emit section finds in a sink built this way.
  predicate Entered(s: State, capacity: nat, overflow: OverflowPolicy, t: State) {
    && s.lock.EmitHeld? && t == FinishEmit(s)
    && s.sh.capacity == capacity && s.sh.overflow == overflow && 0 < capacity && |s.sh.events| <= capacity
  }

  lemma Enter(s: State, capacity: nat, overflow: OverflowPolicy, acts: seq<Action>, t: State)
    requires Reachable(s, capacity, overflow, acts) && Step(s, EmitFinish) == Some(t)
    ensures Entered(s, capacity, overflow, t)
  {
    RunKeepsBuild(s, capacity, overflow, acts);
    AsyncTheorems.ReachableInv(s, capacity, overflow, acts);
    InvEnters(s);
  }

  lemma InvEnters(s: State)
    requires QueueOk(s) && BooksOk(s) && s.lock.EmitHeld?
    ensures 0 < s.sh.capacity && |s.sh.events| <= s.sh.capacity
  {
  }

  lemma RoomAccepts(s: State, capacity: nat, overflow: OverflowPolicy, acts: seq<Action>, t: State)
    requires Reachable(s, capacity, overflow, acts) && Step(s, EmitFinish) == Some(t)
    ensures |s.sh.events| < capacity ==>
      && Enters(s, t, s.sh.events) && t.hist.losses == s.hist.losses
      && t.sh.stats == s.sh.stats.(accepted := s.sh.stats.accepted + 1)
  {
    Enter(s, capacity, overflow, acts, t);
    if |s.sh.events| < capacity {
      EntersRoom(s, capacity, overflow, t);
    }
  }

  lemma EntersRoom(s: State, capacity: nat, overflow: OverflowPolicy, t: State)
    requires Entered(s, capacity, overflow, t) && |s.sh.events| < capacity
    ensures Enters(s, t, s.sh.events) && t.hist.losses == s.hist.losses
    ensures t.sh.stats == s.sh.stats.(accepted := s.sh.stats.accepted + 1)
  {
  }

  lemma FullDropNewestRefuses(s: State, capacity: nat, acts: seq<Action>, t: State)
    requires Reachable(s, capacity, DropNewest, acts) && Step(s, EmitFinish) == Some(t)
    ensures Refused(s, t) <==> |s.sh.events| == capacity
  {
    Enter(s, capacity, DropNewest, acts, t);
    RefusesNewest(s, capacity, t);
  }

  lemma RefusesNewest(s: State, capacity: nat, t: State)
    requires Entered(s, capacity, DropNewest, t)
    ensures Refused(s, t) <==> |s.sh.events| == capacity
  {
  }

  // Only a record that a waiting barrier is owed survives a full queue; otherwise the
  // oldest record gives way and is the one lost.
  lemma FullOverwriteOldestEvicts(s: State, capacity: nat, acts: seq<Action>, t: State)
    requires Reachable(s, capacity, OverwriteOldest, acts) && Step(s, EmitFinish) == Some(t)
    ensures Refused(s, t) <==> |s.sh.events| == capacity && FrontIsOwed(s.sh, s.lock.requestedSeen)
    ensures |s.sh.events| == capacity && !FrontIsOwed(s.sh, s.lock.requestedSeen) ==> Evicts(s, t)
  {
    Enter(s, capacity, OverwriteOldest, acts, t);
    EvictsOldest(s, capacity, t);
  }

  // The front record makes room and is the one lost.
  predicate Evicts(s: State, t: State) {
    && s.sh.events != [] && Enters(s, t, s.sh.events[1..])
    && t.hist.losses == s.hist.losses[s.sh.events[0].sequence := s.lock.begun]
    && t.sh.stats == s.sh.stats.(accepted := s.sh.stats.accepted + 1, overwritten := s.sh.stats.overwritten + 1)
  }

  lemma EvictsOldest(s: State, capacity: nat, t: State)
    requires Entered(s, capacity, OverwriteOldest, t)
    ensures Refused(s, t) <==> |s.sh.events| == capacity && FrontIsOwed(s.sh, s.lock.requestedSeen)
    ensures |s.sh.events| == capacity && !FrontIsOwed(s.sh, s.lock.requestedSeen) ==> Evicts(s, t)
  {
  }

  // ---- shortened texts and failures ----

  // Texts shortened in the records that emit calls brought in.
  function Shortened(acts: seq<Action>): nat
    decreases |acts|
  {
    if acts == [] then 0
    else Shortened(acts[..|acts| - 1]) + ShortenedBy(acts[|acts| - 1])
  }

  function ShortenedBy(a: Action): nat {
    if a.EmitAdmit? then a.event.truncatedFields else 0
  }

  function Panics(acts: seq<Action>): nat
    decreases |acts|
  {
    if acts == [] then 0 else Panics(acts[..|acts| - 1]) + if acts[|acts| - 1] == WorkerPanic then 1 else 0
  }

  function Failures(ops: seq<WriterOp>): nat
    decreases |ops|
  {
    if ops == [] then 0 else Failures(ops[..|ops| - 1]) + if ops[|ops| - 1].error.Some? then 1 else 0
  }

  // The flush at shutdown is the last thing a writer is asked for.
  predicate EndsWithShutdownFlush(s: State) {
    s.worker.FinalPublishing? || s.hist.finalFlush
  }

  ghost predicate CountsOk(s: State, shortened: nat, panics: nat) {
    && s.sh.stats.truncated == shortened
    && (EndsWithShutdownFlush(s) ==> s.hist.ops != [])
    && s.sh.stats.writeErrors == panics
      + Failures(if EndsWithShutdownFlush(s) then s.hist.ops[..|s.hist.ops| - 1] else s.hist.ops)
  }

  lemma FailuresSnoc(ops: seq<WriterOp>, op: WriterOp)
    ensures Failures(ops + [op]) == Failures(ops) + if op.error.Some? then 1 else 0
    ensures (ops + [op])[..|ops|] == ops
  {
    assert (ops + [op])[..|ops|] == ops;
  }

  lemma WorkerCounts(s: State, outcome: Option<FlushError>, t: State, shortened: nat, panics: nat)
    requires s.hist.finalFlush ==> s.worker.Halting? || IsExit(s.worker)
    requires CountsOk(s, shortened, panics) && WorkerNext(s, outcome) == Some(t)
    ensures CountsOk(t, shortened, panics)
  {
    WorkerOutcome(s, outcome, t);
    match s.worker
    case Writing(item) => FailuresSnoc(s.hist.ops, t.hist.ops[|s.hist.ops|]);
    case Flushing(processed) => FailuresSnoc(s.hist.ops, t.hist.ops[|s.hist.ops|]);
    case FinalFlushing(processed) => FailuresSnoc(s.hist.ops, t.hist.ops[|s.hist.ops|]);
    case _ =>
  }

  // One operation is logged with its outcome, and counted when it fails.
  predicate Logs(s: State, outcome: Option<FlushError>, t: State, counted: bool) {
    && |t.hist.ops| == |s.hist.ops| + 1 && t.hist.ops == s.hist.ops + [t.hist.ops[|s.hist.ops|]]
    && t.hist.ops[|s.hist.ops|].error == outcome
    && t.sh.stats.writeErrors == s.sh.stats.writeErrors + (if counted && outcome.Some? then 1 else 0)
    && t.hist.finalFlush == s.hist.finalFlush
  }

  lemma WorkerOutcome(s: State, outcome: Option<FlushError>, t: State)
    requires WorkerNext(s, outcome) == Some(t)
    ensures t.sh.stats.truncated == s.sh.stats.truncated
    ensures s.worker.Writing? || s.worker.Flushing? ==> Logs(s, outcome, t, true) && !t.worker.FinalPublishing?
    ensures s.worker.FinalFlushing? ==> Logs(s, outcome, t, false) && t.worker.FinalPublishing?
    ensures !s.worker.Writing? && !s.worker.Flushing? && !s.worker.FinalFlushing? ==>
      && t.hist.ops == s.hist.ops && t.sh.stats.writeErrors == s.sh.stats.writeErrors
      && EndsWithShutdownFlush(t) == EndsWithShutdownFlush(s)
  {
    match s.worker
    case Settling(processed, result, at) =>
    case Waking(left, resume) =>
    case CheckingStop(processed) =>
    case _ =>
  }

  lemma PanicCounts(s: State, t: State, shortened: nat, panics: nat)
    requires s.hist.finalFlush ==> s.worker.Halting? || IsExit(s.worker)
    requires CountsOk(s, shortened, panics) && PanicNext(s) == Some(t)
    ensures CountsOk(t, shortened, panics + 1)
  {
  }

  lemma BarrierCounts(s: State, id: nat, t: State)
    requires id in s.barriers && BarrierNext(s, id) == Some(t)
    ensures t.worker == s.worker && t.hist == s.hist && t.sh.stats == s.sh.stats
  {
  }

  lemma FinishCounts(s: State)
    requires s.lock.EmitHeld?
    ensures var t := FinishEmit(s);
      && t.worker == s.worker && t.hist.ops == s.hist.ops && t.hist.finalFlush == s.hist.finalFlush
      && t.sh.stats.writeErrors == s.sh.stats.writeErrors && t.sh.stats.truncated == s.sh.stats.truncated
  {
  }

  lemma CallerCounts(s: State, a: Action, t: State)
    requires !a.WorkerStep? && !a.WorkerPanic? && !a.BarrierStep? && !a.EmitFinish? && Step(s, a) == Some(t)
    ensures t.worker == s.worker && t.hist.ops == s.hist.ops && t.hist.finalFlush == s.hist.finalFlush
    ensures t.sh.stats.writeErrors == s.sh.stats.writeErrors
    ensures t.sh.stats.truncated == s.sh.stats.truncated + ShortenedBy(a)
  {
  }

  lemma {:induction false} RunCounts(s: State, capacity: nat, overflow: OverflowPolicy, acts: seq<Action>)
    requires Replay(Init(capacity, overflow), acts) == Some(s)
    ensures CountsOk(s, Shortened(acts), Panics(acts))
    decreases |acts|
  {
    if acts != [] {
      var past, a := acts[..|acts| - 1], acts[|acts| - 1];
      var before := Replay(Init(capacity, overflow), past).value;
      RunCounts(before, capacity, overflow, past);
      AsyncTheorems.ReachableInv(before, capacity, overflow, past);
      StepCounts(before, a, s, Shortened(past), Panics(past));
    }
  }

  lemma StepCounts(s: State, a: Action, t: State, shortened: nat, panics: nat)
    requires FlushErrorsOk(s) && CountsOk(s, shortened, panics) && Step(s, a) == Some(t)
    ensures CountsOk(t, shortened + ShortenedBy(a), panics + if a.WorkerPanic? then 1 else 0)
  {
    match a
    case WorkerStep(outcome) => WorkerCounts(s, outcome, t, shortened, panics);
    case WorkerPanic => PanicCounts(s, t, shortened, panics);
    case BarrierStep(id) => BarrierCounts(s, id, t);
    case EmitFinish => FinishCounts(s);
    case _ => CallerCounts(s, a, t);
  }

  // Over every run the truncation counter is the number of texts shortened on the way
  // in, and the error counter is the number of failed writes and flushes and of panics;
  // only the flush at shutdown fails uncounted.
  lemma CountsAreExact(s: State, capacity: nat, overflow: OverflowPolicy, acts: seq<Action>)
    requires Reachable(s, capacity, overflow, acts)
    ensures s.sh.stats.truncated == Shortened(acts)
    ensures EndsWithShutdownFlush(s) ==>
      s.hist.ops != [] && s.sh.stats.writeErrors == Failures(s.hist.ops[..|s.hist.ops| - 1]) + Panics(acts)
    ensures !EndsWithShutdownFlush(s) ==> s.sh.stats.writeErrors == Failures(s.hist.ops) + Panics(acts)
  {
    RunCounts(s, capacity, overflow, acts);
  }

  // ---- what a flush is asked to cover ----

  // A barrier's target stays, and so does everything accepted.
  predicate Keeps(s: State, t: State) {
    && (forall id :: id in s.barriers ==> id in t.barriers && t.barriers[id].target == s.barriers[id].target)
    && s.hist.accepted <= t.hist.accepted
  }

  lemma WakesKeepTargets(barriers: map<nat, Barrier>, waker: nat)
    ensures forall id :: id in barriers ==>
      && id in WakeAll(barriers, waker) && WakeAll(barriers, waker)[id].target == barriers[id].target
      && id in UnparkAll(barriers) && UnparkAll(barriers)[id].target == barriers[id].target
  {
  }

  lemma WorkerKeepsTargets(s: State, outcome: Option<FlushError>, t: State)
    requires WorkerNext(s, outcome) == Some(t)
    ensures Keeps(s, t)
  {
    match s.worker
    case Notifying(resume) => WakesKeepTargets(s.barriers, 0);
    case Waking(left, resume) =>
      if left != [] {
        WakesKeepTargets(s.barriers, left[0]);
      }
    case _ =>
      WorkerLeavesBarriers(s, outcome, t);
  }

  lemma WorkerLeavesBarriers(s: State, outcome: Option<FlushError>, t: State)
    requires !s.worker.Notifying? && !s.worker.Waking? && WorkerNext(s, outcome) == Some(t)
    ensures t.barriers == s.barriers && t.hist.accepted == s.hist.accepted
  {
    match s.worker
    case Settling(processed, result, at) =>
    case CheckingStop(processed) =>
    case _ =>
  }

  lemma BarrierKeepsTargets(s: State, id: nat, t: State)
    requires id in s.barriers && BarrierNext(s, id) == Some(t)
    ensures Keeps(s, t)
  {
  }

  lemma StepKeepsTargets(s: State, a: Action, t: State)
    requires Step(s, a) == Some(t)
    ensures Keeps(s, t)
  {
    match a
    case WorkerStep(outcome) => WorkerKeepsTargets(s, outcome, t);
    case BarrierStep(id) => BarrierKeepsTargets(s, id, t);
    case EmitFinish => FinishKeepsTargets(s);
    case _ => CallerKeepsTargets(s, a, t);
  }

  lemma FinishKeepsTargets(s: State)
    requires s.lock.EmitHeld?
    ensures Keeps(s, FinishEmit(s))
  {
  }

  lemma CallerKeepsTargets(s: State, a: Action, t: State)
    requires !a.WorkerStep? && !a.BarrierStep? && !a.EmitFinish? && Step(s, a) == Some(t)
    ensures Keeps(s, t)
  {
  }

  lemma {:induction false} RunKeepsTargets(s: State, acts: seq<Action>, t: State)
    requires Replay(s, acts) == Some(t)
    ensures Keeps(s, t)
    decreases |acts|
  {
    if acts != [] {
      var before := Replay(s, acts[..|acts| - 1]).value;
      RunKeepsTargets(s, acts[..|acts| - 1], before);
      StepKeepsTargets(before, acts[|acts| - 1], t);
    }
  }

  lemma {:induction false} RunBoth(next: Stepper, s: State, x: seq<Action>, y: seq<Action>)
    requires Run(next, s, x).Some?
    ensures Run(next, s, x + y) == Run(next, Run(next, s, x).value, y)
    decreases |y|
  {
    if y == [] {
      assert x + y == x;
    } else {
      var n := |y| - 1;
      RunBoth(next, s, x, y[..n]);
      assert (x + y)[..|x| + n] == x + y[..n] && (x + y)[|x| + n] == y[n];
    }
  }

  lemma RunOn(next: Stepper, s: State, acts: seq<Action>, a: Action, more: seq<Action>)
    requires Run(next, s, acts).Some? && next(Run(next, s, acts).value, a).Some?
    ensures Run(next, s, acts + [a] + more) == Run(next, next(Run(next, s, acts).value, a).value, more)
  {
    assert (acts + [a])[..|acts|] == acts;
    RunBoth(next, s, acts + [a], more);
  }

  // From the call of `flush` on, its barrier covers every record accepted before the
  // call: once it is raised and its target is flushed, each of them went to the writer,
  // unchanged, before a completed flush, or was overwritten by an emit whose section had
  // begun before the request.
  lemma FlushCovers(
      s: State, capacity: nat, overflow: OverflowPolicy, acts: seq<Action>, id: nat, asked: State,
      more: seq<Action>, t: State, n: nat)
    requires Reachable(s, capacity, overflow, acts) && Step(s, FlushTarget(id)) == Some(asked)
    requires Replay(asked, more) == Some(t)
    ensures id in t.barriers && t.barriers[id].target == |s.hist.accepted| && s.hist.accepted <= t.hist.accepted
    ensures IsRaised(t.barriers[id]) && |s.hist.accepted| <= t.sh.flushed && 1 <= n <= |s.hist.accepted| ==>
      if n in t.hist.losses then t.hist.losses[n] < t.barriers[id].raisedAt
      else AsyncTheorems.HandedOverBeforeFlush(t.hist, n)
  {
    TargetIsNewest(s, capacity, overflow, acts, id, asked);
    RunKeepsTargets(asked, more, t);
    Joined(s, capacity, overflow, acts, FlushTarget(id), asked, more, t);
    if IsRaised(t.barriers[id]) && |s.hist.accepted| <= t.sh.flushed && 1 <= n <= |s.hist.accepted| {
      AsyncTheorems.BarrierComplete(t, capacity, overflow, acts + [FlushTarget(id)] + more, id, n);
    }
  }

  lemma TargetIsNewest(s: State, capacity: nat, overflow: OverflowPolicy, acts: seq<Action>, id: nat, asked: State)
    requires Reachable(s, capacity, overflow, acts) && Step(s, FlushTarget(id)) == Some(asked)
    ensures id in asked.barriers && asked.barriers[id].target == |s.hist.accepted| && asked.hist == s.hist
  {
    NextIsCount(s, capacity, overflow, acts);
  }

  lemma NextIsCount(s: State, capacity: nat, overflow: OverflowPolicy, acts: seq<Action>)
    requires Reachable(s, capacity, overflow, acts)
    ensures s.sh.next == |s.hist.accepted|
  {
    AsyncTheorems.ReachableInv(s, capacity, overflow, acts);
  }

  lemma Joined(
      s: State, capacity: nat, overflow: OverflowPolicy, acts: seq<Action>, a: Action, u: State, more: seq<Action>, t: State)
    requires Reachable(s, capacity, overflow, acts) && Step(s, a) == Some(u) && Replay(u, more) == Some(t)
    ensures Reachable(t, capacity, overflow, acts + [a] + more)
  {
    var init := Init(capacity, overflow);
    ReplayIsRun(init, acts);
    ReplayIsRun(u, more);
    RunOn(Step, init, acts, a, more);
    ReplayIsRun(init, acts + [a] + more);
  }

  // Shutting down asks for everything accepted to be flushed.
  lemma DropAsksForEverything(s: State, capacity: nat, overflow: OverflowPolicy, acts: seq<Action>, t: State)
    requires Reachable(s, capacity, overflow, acts) && Step(s, DropRequest) == Some(t)
    ensures t.sh.requested == |t.hist.accepted| && t.hist.accepted == s.hist.accepted
  {
    NextIsCount(s, capacity, overflow, acts);
  }

  // ---- sinks that take nothing ----

  lemma NothingEnters(s: State, a: Action, t: State)
    requires BooksOk(s) && s.sh.capacity == 0 && Step(s, a) == Some(t)
    ensures t.hist.accepted == s.hist.accepted
  {
    match a
    case WorkerStep(outcome) => WorkerKeepsAccepted(s, outcome, t);
    case BarrierStep(id) => BarrierKeepsTargets(s, id, t);
    case _ =>
  }

  lemma WorkerKeepsAccepted(s: State, outcome: Option<FlushError>, t: State)
    requires WorkerNext(s, outcome) == Some(t)
    ensures t.hist.accepted == s.hist.accepted
  {
    match s.worker
    case Settling(processed, result, at) =>
    case Waking(left, resume) =>
    case CheckingStop(processed) =>
    case _ =>
  }

  // A sink without capacity accepts nothing, and counts every call as dropped.
  lemma {:induction false} NoCapacityNoRecords(s: State, overflow: OverflowPolicy, acts: seq<Action>)
    requires Reachable(s, 0, overflow, acts)
    ensures s.hist.accepted == [] && s.sh.stats.dropped == s.calls
    decreases |acts|
  {
    if acts != [] {
      var past := acts[..|acts| - 1];
      var before := Replay(Init(0, overflow), past).value;
      NoCapacityNoRecords(before, overflow, past);
      AsyncTheorems.ReachableInv(before, 0, overflow, past);
      RunKeepsBuild(before, 0, overflow, past);
      NothingEnters(before, acts[|acts| - 1], s);
    }
    AsyncTheorems.ReachableInv(s, 0, overflow, acts);
    RunKeepsBuild(s, 0, overflow, acts);
    AllDropped(s);
  }

  lemma AllDropped(s: State)
    requires QueueOk(s) && BooksOk(s) && s.sh.capacity == 0 && s.hist.accepted == []
    ensures s.sh.stats.dropped == s.calls
  {
  }

  // Records still on their way into the queue.
  predicate OnlyShrinks(s: State, t: State) {
    t.sh.stopped && t.admitted <= s.admitted
  }

  lemma StoppedWorkerAdmits(s: State, outcome: Option<FlushError>, t: State)
    requires s.sh.stopped && WorkerNext(s, outcome) == Some(t)
    ensures OnlyShrinks(s, t)
  {
    match s.worker
    case Settling(processed, result, at) =>
    case Waking(left, resume) =>
    case CheckingStop(processed) =>
    case _ =>
  }

  lemma StoppedStep(s: State, a: Action, t: State)
    requires s.sh.stopped && Step(s, a) == Some(t)
    ensures OnlyShrinks(s, t)
  {
    match a
    case WorkerStep(outcome) => StoppedWorkerAdmits(s, outcome, t);
    case BarrierStep(id) => BarrierKeepsAdmitted(s, id, t);
    case EmitFinish => FinishKeepsAdmitted(s);
    case _ =>
  }

  lemma BarrierKeepsAdmitted(s: State, id: nat, t: State)
    requires id in s.barriers && BarrierNext(s, id) == Some(t)
    ensures t.admitted == s.admitted && t.sh.stopped == s.sh.stopped
  {
  }

  lemma FinishKeepsAdmitted(s: State)
    requires s.lock.EmitHeld?
    ensures FinishEmit(s).admitted == s.admitted && FinishEmit(s).sh.stopped == s.sh.stopped
  {
  }

  // Every call on an open handle is let through or counted as dropped, and let through
  // exactly when the sink has capacity and has not stopped.
  lemma CallIsAnswered(s: State, event: OwnedEvent)
    requires s.handles == Open
    ensures Step(s, EmitAdmit(event)).Some? <==> s.sh.capacity > 0 && !s.sh.stopped
    ensures Step(s, EmitAdmit(event)).None? ==>
      Step(s, EmitRefused) == Some(s.(calls := s.calls + 1,
        sh := s.sh.(stats := s.sh.stats.(dropped := s.sh.stats.dropped + 1))))
    ensures Step(s, EmitAdmit(event)).Some? ==> Step(s, EmitRefused).None?
  {
  }

  // A sink that has stopped lets no further record in: only those let in before may
  // still reach the queue.
  lemma {:induction false} StoppedSinkAdmitsNothing(s: State, acts: seq<Action>, t: State)
    requires s.sh.stopped && Replay(s, acts) == Some(t)
    ensures OnlyShrinks(s, t)
    decreases |acts|
  {
    if acts != [] {
      var before := Replay(s, acts[..|acts| - 1]).value;
      StoppedSinkAdmitsNothing(s, acts[..|acts| - 1], before);
      StoppedStep(before, acts[|acts| - 1], t);
    }
  }

  // With the queue empty the worker goes to sleep exactly when no flush is outstanding
  // and the sink is not shutting down; otherwise it goes on to flush or stop.
  lemma IdleWorkerParks(
      s: State, capacity: nat, overflow: OverflowPolicy, acts: seq<Action>, outcome: Option<FlushError>, t: State)
    requires Reachable(s, capacity, overflow, acts) && s.worker.Deciding? && Step(s, WorkerStep(outcome)) == Some(t)
    ensures s.sh.events == [] && t.sh == s.sh && t.lock == Free
    ensures t.worker == ParkedWorker <==> s.worker.requestedSeen <= s.sh.flushed && !s.sh.shutdown
    ensures t.worker != ParkedWorker ==> t.worker == LoadingProcessed
  {
    NothingQueued(s, capacity, overflow, acts);
    Decides(s, outcome, t);
  }

  lemma NothingQueued(s: State, capacity: nat, overflow: OverflowPolicy, acts: seq<Action>)
    requires Reachable(s, capacity, overflow, acts) && s.worker.Deciding?
    ensures s.sh.events == []
  {
    AsyncTheorems.ReachableInv(s, capacity, overflow, acts);
  }

  lemma Decides(s: State, outcome: Option<FlushError>, t: State)
    requires s.worker.Deciding? && Step(s, WorkerStep(outcome)) == Some(t)
    ensures t.sh == s.sh && t.lock == Free
    ensures t.worker == ParkedWorker <==> s.worker.requestedSeen <= s.sh.flushed && !s.sh.shutdown
    ensures t.worker != ParkedWorker ==> t.worker == LoadingProcessed
  {
  }
}
