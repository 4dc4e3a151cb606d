// The protocol's worker with nothing running beside it does what the in-place methods
// do: its steps, taken in one go, are their specifications. So are a barrier's.

module AsyncIteration {
  import opened Basics
  import opened AsyncShared
  import opened AsyncProtocol

  // The worker's own steps, one after the other; each outcome is the writer's answer if
  // the step asks it.
  function WorkerRun(s: State, outcomes: seq<Option<FlushError>>): Option<State> {
    if outcomes == [] then Some(s)
    else
      var before := WorkerRun(s, outcomes[..|outcomes| - 1]);
      if before.None? then None else WorkerNext(before.value, outcomes[|outcomes| - 1])
  }

  ghost predicate WorkerReaches(s: State, t: State) {
    exists outcomes: seq<Option<FlushError>> :: WorkerRun(s, outcomes) == Some(t)
  }

  // Any property of states that the worker's steps hand on, such as being reached.
  ghost predicate WorkerClosed(reach: State -> bool) {
    forall s, outcome | reach(s) && WorkerNext(s, outcome).Some? :: reach(WorkerNext(s, outcome).value)
  }

  lemma Reaching(start: State) returns (reach: State -> bool)
    ensures WorkerClosed(reach) && reach(start) && forall s | reach(s) :: WorkerReaches(start, s)
  {
    reach := s => WorkerReaches(start, s);
    assert WorkerRun(start, []) == Some(start);
    forall s, outcome | reach(s) && WorkerNext(s, outcome).Some? ensures reach(WorkerNext(s, outcome).value) {
      var outcomes: seq<Option<FlushError>> :| WorkerRun(start, outcomes) == Some(s);
      assert (outcomes + [outcome])[..|outcomes|] == outcomes;
      assert WorkerRun(start, outcomes + [outcome]) == WorkerNext(s, outcome);
    }
  }

  lemma Turn(reach: State -> bool, s: State, outcome: Option<FlushError>) returns (t: State)
    requires WorkerClosed(reach) && reach(s) && WorkerNext(s, outcome).Some?
    ensures t == WorkerNext(s, outcome).value && reach(t)
  {
    t := WorkerNext(s, outcome).value;
  }

  // Nobody holds a lock the worker needs.
  predicate Unhindered(s: State) {
    s.lock == Free && s.progressHolder.None?
  }

  // ---- the sections of an iteration ----

  lemma WriteTurn(reach: State -> bool, r: State, outcome: Option<FlushError>) returns (s: State)
    requires WorkerClosed(reach) && reach(r) && r.worker == Top && Unhindered(r) && r.sh.events != []
    ensures reach(s)
    ensures s == r.(sh := AfterWrite(r.sh, outcome), worker := LoadingProcessed, hist := s.hist)
  {
    s := Turn(reach, r, None);
    s := Turn(reach, s, outcome);
    if outcome.Some? {
      s := Turn(reach, s, None);
    }
    s := Turn(reach, s, None);
  }

  // The condition under which an empty queue does not park the worker.
  predicate GoesOn(sh: Shared) {
    sh.events != [] || sh.requested > sh.flushed || sh.shutdown
  }

  lemma TopTurn(reach: State -> bool, r: State, write: nat -> Option<FlushError>) returns (s: State)
    requires WorkerClosed(reach) && reach(r) && r.worker == Top && Unhindered(r) && GoesOn(r.sh)
    ensures reach(s)
    ensures s == r.(sh := AfterTop(r.sh, write), worker := LoadingProcessed, hist := s.hist)
  {
    if r.sh.events != [] {
      s := WriteTurn(reach, r, write(r.sh.events[0].sequence));
    } else {
      s := Turn(reach, r, None);
      s := Turn(reach, s, None);
    }
  }

  // Deciding whether to flush, and flushing, up to the notification.
  lemma FlushTurn(reach: State -> bool, r: State, outcome: Option<FlushError>) returns (s: State)
    requires WorkerClosed(reach) && reach(r) && r.worker == LoadingProcessed
    ensures reach(s)
    ensures s == r.(sh := AfterFlush(r.sh, outcome), worker := s.worker, hist := s.hist)
    ensures s.worker == if FlushDue(r.sh) then Notifying(Continue(r.sh.processed)) else CheckingStop(r.sh.processed)
  {
    s := Turn(reach, r, None);
    s := Turn(reach, s, None);
    if FlushDue(r.sh) {
      s := Turn(reach, s, outcome);
      s := Turn(reach, s, None);
      s := Turn(reach, s, None);
    }
  }

  lemma {:induction false} WakingTurn(reach: State -> bool, r: State) returns (s: State)
    requires WorkerClosed(reach) && reach(r) && r.worker.Waking?
    ensures reach(s) && s == r.(barriers := s.barriers, worker := Waking([], r.worker.resume))
    decreases if r.worker.Waking? then |r.worker.left| else 0
  {
    s := r;
    if r.worker.left != [] {
      s := Turn(reach, r, None);
      s := WakingTurn(reach, s);
    }
  }

  // `notify_progress`: what the in-place methods leave out.
  lemma NotifyTurn(reach: State -> bool, r: State) returns (s: State)
    requires WorkerClosed(reach) && reach(r) && r.worker.Notifying? && Unhindered(r)
    ensures reach(s) && s == r.(sh := r.sh.(wakers := []), barriers := s.barriers, worker := s.worker)
    ensures s.worker == match r.worker.resume case Continue(p) => CheckingStop(p) case Exit(stuck) => Finished(stuck)
  {
    s := Turn(reach, r, None);
    s := Turn(reach, s, None);
    s := WakingTurn(reach, s);
    s := Turn(reach, s, None);
  }

  lemma StopTurn(reach: State -> bool, r: State) returns (s: State)
    requires WorkerClosed(reach) && reach(r) && r.worker == CheckingStop(r.sh.processed) && Unhindered(r)
    ensures reach(s)
    ensures s == r.(sh := AfterStop(r.sh), worker := s.worker, hist := s.hist)
    ensures s.worker == if ShouldStop(r.sh) then Notifying(Exit(None)) else Top
  {
    s := Turn(reach, r, None);
    if ShouldStop(r.sh) {
      if r.sh.flushed < r.sh.processed {
        s := Turn(reach, s, None);
        s := Turn(reach, s, None);
      }
      s := Turn(reach, s, None);
    }
  }

  // ---- whole iterations ----

  // The two states agree but for the wakers, which notifying takes.
  predicate SameButWakers(x: Shared, y: Shared) {
    x == y.(wakers := x.wakers)
  }

  lemma FlushAndTell(reach: State -> bool, r: State, outcome: Option<FlushError>) returns (s: State)
    requires WorkerClosed(reach) && reach(r) && r.worker == LoadingProcessed && Unhindered(r)
    ensures reach(s) && Unhindered(s) && s.worker == CheckingStop(s.sh.processed)
    ensures SameButWakers(s.sh, AfterFlush(r.sh, outcome))
  {
    s := FlushTurn(reach, r, outcome);
    if s.worker.Notifying? {
      s := NotifyTurn(reach, s);
    }
  }

  lemma StopAndTell(reach: State -> bool, r: State) returns (s: State)
    requires WorkerClosed(reach) && reach(r) && r.worker == CheckingStop(r.sh.processed) && Unhindered(r)
    ensures reach(s) && Unhindered(s) && SameButWakers(s.sh, AfterStop(r.sh))
    ensures s.worker == if ShouldStop(r.sh) then Finished(None) else Top
  {
    s := StopTurn(reach, r);
    if s.worker.Notifying? {
      s := NotifyTurn(reach, s);
    }
  }

  lemma WakersDoNotMatter(x: Shared, y: Shared, outcome: Option<FlushError>)
    requires SameButWakers(x, y)
    ensures SameButWakers(AfterStop(x), AfterStop(y)) && (ShouldStop(x) <==> ShouldStop(y))
    ensures SameButWakers(AfterFlush(x, outcome), AfterFlush(y, outcome))
    ensures x.events != [] ==> SameButWakers(AfterWrite(x, outcome), AfterWrite(y, outcome))
  {
  }

  // From the top of its loop a worker that does not park comes back there, or exits,
  // having done what the in-place iteration does.
  lemma IterationTurn(
      reach: State -> bool, r: State, write: nat -> Option<FlushError>, flush: nat -> Option<FlushError>)
    returns (s: State)
    requires WorkerClosed(reach) && reach(r) && r.worker == Top && Unhindered(r) && GoesOn(r.sh)
    ensures reach(s) && Unhindered(s) && SameButWakers(s.sh, Iterated(r.sh, write, flush))
    ensures s.worker == if ShouldStop(s.sh) then Finished(None) else Top
  {
    s := TopTurn(reach, r, write);
    var flushed := AfterFlush(s.sh, flush(s.sh.processed));
    s := FlushAndTell(reach, s, flush(s.sh.processed));
    WakersDoNotMatter(s.sh, flushed, None);
    s := StopAndTell(reach, s);
  }

  lemma IteratedOnce(x: Shared, y: Shared, write: nat -> Option<FlushError>, flush: nat -> Option<FlushError>)
    requires SameButWakers(x, y)
    ensures SameButWakers(Iterated(x, write, flush), Iterated(y, write, flush))
  {
    if x.events != [] {
      WakersDoNotMatter(x, y, write(x.events[0].sequence));
    }
    var a, b := AfterTop(x, write), AfterTop(y, write);
    WakersDoNotMatter(a, b, flush(a.processed));
    WakersDoNotMatter(AfterFlush(a, flush(a.processed)), AfterFlush(b, flush(b.processed)), None);
  }

  lemma {:induction false} DrainTurns(
      reach: State -> bool, r: State, sh: Shared, write: nat -> Option<FlushError>, flush: nat -> Option<FlushError>)
    returns (s: State)
    requires WorkerClosed(reach) && reach(r) && r.worker == Top && Unhindered(r)
    requires CanDrain(sh) && !sh.stopped && SameButWakers(r.sh, sh)
    ensures reach(s) && s.worker == Finished(None) && SameButWakers(s.sh, Drained(sh, write, flush))
    decreases |sh.events|
  {
    IteratedGoesOn(sh, write, flush);
    s := IterationTurn(reach, r, write, flush);
    IteratedOnce(r.sh, sh, write, flush);
    var next := Iterated(sh, write, flush);
    if !next.stopped {
      s := DrainTurns(reach, s, next, write, flush);
    }
  }

  // A worker left alone after shutdown drains the queue just as `DrainAndStop` does,
  // except that it also takes the wakers, and finishes.
  lemma WorkerDrains(r: State, write: nat -> Option<FlushError>, flush: nat -> Option<FlushError>)
    requires r.worker == Top && Unhindered(r) && CanDrain(r.sh) && !r.sh.stopped
    ensures exists s: State ::
      WorkerReaches(r, s) && s.worker == Finished(None) && SameButWakers(s.sh, Drained(r.sh, write, flush))
  {
    var reach := Reaching(r);
    var s := DrainTurns(reach, r, r.sh, write, flush);
  }

  // ---- barriers ----

  // The two steps of `flush` in one go.
  lemma FlushAtOnce(s: State, id: nat)
    requires s.handles == Open && s.lock == Free && id !in s.barriers
    ensures var mid := Step(s, FlushTarget(id));
      && mid.Some? && Step(mid.value, FlushRaise(id)).Some?
      && Step(mid.value, FlushRaise(id)).value.sh == Raise(s.sh, s.sh.next)
      && Step(mid.value, FlushRaise(id)).value.barriers[id].target == s.sh.next
  {
  }

  // Where an evaluation that finds the sink like this ends up.
  function Outcome(sh: Shared, target: nat, caller: Caller): BarrierPc {
    match Answer(sh, target)
    case Some(verdict) => Done(verdict)
    case None =>
      match caller
      case ByWait => Parking
      case FirstPoll(waker) => Registering(waker)
      case SecondPoll(waker, woken) => Pending(waker, woken)
  }

  // After `n` of the barrier's own steps it stands at `pc`, the memory as it was.
  predicate Evaluates(s: State, id: nat, n: nat, pc: BarrierPc) {
    var t := Replay(s, seq(n, _ => BarrierStep(id)));
    t.Some? && id in t.value.barriers && t.value.barriers[id].pc == pc && t.value.sh == s.sh
  }

  lemma FirstStep(s: State, id: nat, caller: Caller) returns (t: State)
    requires id in s.barriers && s.barriers[id].pc == LoadFlushed(caller)
    ensures Step(s, BarrierStep(id)) == Some(t) && id in t.barriers && t.sh == s.sh
    ensures t.barriers[id].target == s.barriers[id].target
    ensures t.barriers[id].pc ==
      if s.sh.flushed < s.barriers[id].target then LoadStopped(caller) else LoadFlushError(caller)
  {
    t := Glance(s, id, caller);
  }

  lemma ShortStep(s: State, id: nat, caller: Caller) returns (t: State)
    requires id in s.barriers && s.barriers[id].pc == LoadStopped(caller) && s.sh.flushed < s.barriers[id].target
    ensures Step(s, BarrierStep(id)) == Some(t) && id in t.barriers && t.sh == s.sh
    ensures t.barriers[id].pc == Outcome(s.sh, s.barriers[id].target, caller)
  {
    if s.sh.stopped {
      t := Release(Move(s, id, Done(Some(StoppedEarly()))), caller);
    } else {
      t := Move(s, id, Outcome(s.sh, s.barriers[id].target, caller));
    }
  }

  lemma FlushSlotStep(s: State, id: nat, caller: Caller) returns (t: State)
    requires id in s.barriers && s.barriers[id].pc == LoadFlushError(caller)
    ensures Step(s, BarrierStep(id)) == Some(t) && id in t.barriers && t.sh == s.sh
    ensures t.barriers[id].target == s.barriers[id].target
    ensures t.barriers[id].pc == LoadWriteError(caller, FlushErrorFor(s.sh, s.barriers[id].target))
  {
    t := Step(s, BarrierStep(id)).value;
  }

  lemma WriteSlotStep(s: State, id: nat, caller: Caller, e: Option<FlushError>) returns (t: State)
    requires id in s.barriers && s.barriers[id].pc == LoadWriteError(caller, e)
    ensures Step(s, BarrierStep(id)) == Some(t) && id in t.barriers && t.sh == s.sh
    ensures t.barriers[id].pc == Done(if e.Some? then e else WriteErrorFor(s.sh, s.barriers[id].target))
  {
    t := Step(s, BarrierStep(id)).value;
  }

  lemma CoveredOutcome(sh: Shared, target: nat, caller: Caller)
    ensures sh.flushed >= target ==>
      Outcome(sh, target, caller)
      == Done(if FlushErrorFor(sh, target).Some? then FlushErrorFor(sh, target) else WriteErrorFor(sh, target))
    ensures sh.flushed < target && sh.stopped ==> Outcome(sh, target, caller) == Done(Some(StoppedEarly()))
  {
  }

  // One evaluation in one go answers what `BarrierResult` computes.
  lemma EvaluationAtOnce(s: State, id: nat, caller: Caller)
    requires id in s.barriers && s.barriers[id].pc == LoadFlushed(caller)
    ensures exists n :: Evaluates(s, id, n, Outcome(s.sh, s.barriers[id].target, caller))
  {
    var a := FirstStep(s, id, caller);
    CoveredOutcome(s.sh, s.barriers[id].target, caller);
    if s.sh.flushed < s.barriers[id].target {
      var b := ShortStep(a, id, caller);
      Twice(s, BarrierStep(id), a, b);
      assert Evaluates(s, id, 2, b.barriers[id].pc);
    } else {
      var b := FlushSlotStep(a, id, caller);
      var c := WriteSlotStep(b, id, caller, FlushErrorFor(s.sh, s.barriers[id].target));
      Thrice(s, BarrierStep(id), a, b, c);
      assert Evaluates(s, id, 3, c.barriers[id].pc);
    }
  }

  lemma Twice(s: State, a: Action, x: State, y: State)
    requires Step(s, a) == Some(x) && Step(x, a) == Some(y)
    ensures Replay(s, seq(2, _ => a)) == Some(y)
  {
    var acts: seq<Action> := seq(2, _ => a);
    assert acts[..1] == [a] && [a][..0] == [];
    assert Replay(s, [a]) == Some(x);
  }

  lemma Thrice(s: State, a: Action, x: State, y: State, z: State)
    requires Step(s, a) == Some(x) && Step(x, a) == Some(y) && Step(y, a) == Some(z)
    ensures Replay(s, seq(3, _ => a)) == Some(z)
  {
    Twice(s, a, x, y);
    var acts: seq<Action> := seq(3, _ => a);
    assert acts[..2] == seq(2, _ => a);
  }
}
