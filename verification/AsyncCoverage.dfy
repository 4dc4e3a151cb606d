// Preservation of the coverage and guard invariants: what a flush vouches for,
// and which records a pending barrier shields from being overwritten.

module AsyncCoverage {
  import opened Basics
  import opened AsyncShared
  import opened AsyncProtocol
  import opened AsyncInvariants

  lemma HandOverKeepsFlushes(s: State, outcome: Option<FlushError>)
    requires LogSound(s) && PlaceOk(s) && FlushesOk(s) && s.worker.Writing?
    ensures FlushesOk(HandOver(s, s.worker.item, outcome))
  {
    var t := HandOver(s, s.worker.item, outcome);
    forall n | n in t.hist.writtenAt && n <= t.sh.flushed ensures t.hist.writtenAt[n] == s.hist.writtenAt[n] {}
  }

  lemma FlushStepKeepsFlushes(s: State, outcome: Option<FlushError>, t: State)
    requires LogSound(s) && PlaceOk(s) && FlushesOk(s)
    requires WorkerNext(s, outcome) == Some(t) && IsFlushStep(s.worker)
    ensures FlushesOk(t)
  {
    if s.worker.Flushing? || s.worker.FinalFlushing? {
      forall n | n in s.hist.writtenAt ensures s.hist.writtenAt[n] < |s.hist.ops| { assert IsWriteOf(s.hist, n); }
    }
  }

  lemma StoreKeepsFlushes(s: State)
    requires PlaceOk(s) && FlushesOk(s) && s.worker.Storing?
    ensures FlushesOk(Store(s, s.worker.item))
  {
  }

  // Nothing the flush invariant mentions moves, except that `next` may grow and
  // `requested` may follow it.
  ghost predicate SameFlushes(s: State, t: State) {
    && t.sh.flushed == s.sh.flushed && t.sh.processed == s.sh.processed
    && t.hist.ops == s.hist.ops && t.hist.writtenAt == s.hist.writtenAt && t.hist.mark == s.hist.mark
    && t.sh.requested <= t.sh.next
    && (t.worker == s.worker || (!t.worker.Settling? && !t.worker.Publishing? && !t.worker.FinalPublishing?))
  }

  lemma SameFlushesKeeps(s: State, t: State)
    requires FlushesOk(s) && SameFlushes(s, t)
    ensures FlushesOk(t)
  {
  }

  lemma WorkerFramesFlushes(s: State, outcome: Option<FlushError>, t: State)
    requires s.sh.requested <= s.sh.next && WorkerNext(s, outcome) == Some(t)
    requires !IsFlushStep(s.worker) && !s.worker.Writing? && !s.worker.Storing?
    ensures SameFlushes(s, t)
  {
  }

  lemma WorkerKeepsFlushes(s: State, outcome: Option<FlushError>, t: State)
    requires Ledger(s) && FlushesOk(s)
    requires WorkerNext(s, outcome) == Some(t)
    ensures FlushesOk(t)
  {
    if s.worker.Writing? {
      HandOverKeepsFlushes(s, outcome);
    } else if s.worker.Storing? {
      StoreKeepsFlushes(s);
    } else if IsFlushStep(s.worker) {
      FlushStepKeepsFlushes(s, outcome, t);
    } else {
      WorkerFramesFlushes(s, outcome, t);
      SameFlushesKeeps(s, t);
    }
  }

  lemma RequestsStayIssued(s: State, a: Action, t: State)
    requires s.sh.requested <= s.sh.next && GuardOk(s)
    requires Step(s, a) == Some(t) && IsCallerStep(a)
    ensures t.sh.requested <= t.sh.next
  {
  }

  lemma FinishFramesFlushes(s: State)
    requires s.lock.EmitHeld? && s.sh.requested <= s.sh.next
    ensures SameFlushes(s, FinishEmit(s))
  {
  }

  lemma FlushesKept(s: State, a: Action, t: State)
    requires Ledger(s) && FlushesOk(s) && GuardOk(s) && Step(s, a) == Some(t)
    ensures FlushesOk(t)
  {
    if a.WorkerStep? {
      WorkerKeepsFlushes(s, a.outcome, t);
    } else {
      OthersFrameFlushes(s, a, t);
      SameFlushesKeeps(s, t);
    }
  }

  lemma OthersFrameFlushes(s: State, a: Action, t: State)
    requires s.sh.requested <= s.sh.next && GuardOk(s) && Step(s, a) == Some(t) && !a.WorkerStep?
    ensures SameFlushes(s, t)
  {
    match a
    case WorkerPanic =>
    case BarrierStep(id) => BarrierTouches(s, id, t);
    case EmitFinish => FinishFramesFlushes(s);
    case _ =>
      RequestsStayIssued(s, a, t);
      CallerFrames(s, a, t);
  }

  lemma FinishKeepsGuard(s: State)
    requires QueueOk(s) && PlaceOk(s) && BooksOk(s) && FlushesOk(s) && GuardOk(s) && s.lock.EmitHeld?
    ensures GuardOk(FinishEmit(s))
  {
    if Admit(s.sh, s.lock.requestedSeen) == Evict {
      var front := s.sh.events[0].sequence;
      assert front == Cursor(s) + 1 > s.sh.processed >= s.sh.flushed;
      assert front > s.lock.requestedSeen;
    }
  }

  // A step that keeps the barriers' targets and request times, the lock, and the losses.
  ghost predicate SameGuard(s: State, t: State) {
    && t.sh.next == s.sh.next && t.sh.requested == s.sh.requested
    && t.hist.losses == s.hist.losses && t.clock == s.clock
    && ((t.lock.EmitHeld? && t.lock == s.lock) || (!t.lock.EmitHeld? && !s.lock.EmitHeld?))
    && t.barriers.Keys == s.barriers.Keys
    && (forall id :: id in s.barriers ==>
          && t.barriers[id].target == s.barriers[id].target
          && t.barriers[id].raisedAt == s.barriers[id].raisedAt
          && (IsRaised(t.barriers[id]) <==> IsRaised(s.barriers[id])))
  }

  lemma SameGuardKeeps(s: State, t: State)
    requires GuardOk(s) && SameGuard(s, t)
    ensures GuardOk(t)
  {
  }

  predicate TouchesBarriers(w: Worker) {
    w.Notifying? || w.Waking?
  }

  // What a worker step does to a barrier.
  function Told(w: Worker, b: Barrier): Barrier {
    match w
    case Notifying(_) => Unpark(b)
    case Waking(left, _) => if left != [] then WakeBarrier(b, left[0]) else b
    case _ => b
  }

  lemma WorkerTells(s: State, outcome: Option<FlushError>, t: State)
    requires WorkerNext(s, outcome) == Some(t)
    ensures t.barriers.Keys == s.barriers.Keys
    ensures forall id | id in s.barriers :: t.barriers[id] == Told(s.worker, s.barriers[id])
    ensures s.worker.Notifying? ==> s.progressHolder.None?
    ensures t.progressHolder == s.progressHolder
  {
    if !TouchesBarriers(s.worker) {
      assert t.barriers == s.barriers;
    }
  }

  lemma NotifyFramesGuard(s: State, outcome: Option<FlushError>, t: State)
    requires WorkerNext(s, outcome) == Some(t) && TouchesBarriers(s.worker)
    ensures SameGuard(s, t)
  {
  }

  lemma FlushFramesGuard(s: State, outcome: Option<FlushError>, t: State)
    requires WorkerNext(s, outcome) == Some(t) && IsFlushStep(s.worker)
    ensures SameGuard(s, t)
  {
  }

  lemma WorkerFramesGuard(s: State, outcome: Option<FlushError>, t: State)
    requires (s.lock.WorkerHeld? <==> s.worker.Deciding?) && WorkerNext(s, outcome) == Some(t)
    requires !TouchesBarriers(s.worker) && !IsFlushStep(s.worker)
    ensures t.barriers == s.barriers && t.hist.losses == s.hist.losses && t.clock == s.clock
    ensures t.sh.next == s.sh.next && t.sh.requested == s.sh.requested
    ensures (t.lock.EmitHeld? && t.lock == s.lock) || (!t.lock.EmitHeld? && !s.lock.EmitHeld?)
  {
  }

  lemma RaiseKeepsGuard(s: State, id: nat, t: State)
    requires PlaceOk(s) && BooksOk(s) && GuardOk(s) && Step(s, FlushRaise(id)) == Some(t)
    ensures GuardOk(t)
  {
  }

  lemma BeginKeepsGuard(s: State, a: Action, t: State)
    requires PlaceOk(s) && BooksOk(s) && FlushesOk(s) && GuardOk(s)
    requires a.EmitBegin? && Step(s, a) == Some(t)
    ensures GuardOk(t)
  {
  }

  lemma CallersKeepGuard(s: State, a: Action, t: State)
    requires FlushesOk(s) && GuardOk(s)
    requires Step(s, a) == Some(t) && IsCallerStep(a) && !a.FlushRaise? && !a.EmitBegin?
    ensures GuardOk(t)
  {
    if a.FlushTarget? {
      assert t.barriers[a.id].pc.Raising?;
    } else if a.WaitStart? || a.PollStart? {
      StartsFrameGuard(s, a, t);
      SameGuardKeeps(s, t);
    } else {
      OthersFrameGuard(s, a, t);
    }
  }

  lemma StartsFrameGuard(s: State, a: Action, t: State)
    requires Step(s, a) == Some(t) && (a.WaitStart? || a.PollStart?)
    ensures SameGuard(s, t)
  {
    CallMoves(s, a, t);
    MoveFramesGuard(s, a.id, if a.WaitStart? then WantLock else LoadFlushed(FirstPoll(a.waker)));
  }

  // A call that starts or restarts a barrier just moves it.
  lemma CallMoves(s: State, a: Action, t: State)
    requires Step(s, a) == Some(t) && (a.WaitStart? || a.PollStart?)
    ensures a.id in s.barriers && !HoldsProgress(s.barriers[a.id].pc) && IsRaised(s.barriers[a.id])
    ensures t == Move(s, a.id, if a.WaitStart? then WantLock else LoadFlushed(FirstPoll(a.waker)))
  {
  }

  lemma MoveFramesGuard(s: State, id: nat, pc: BarrierPc)
    requires id in s.barriers && IsRaised(s.barriers[id]) && !pc.Raising?
    ensures SameGuard(s, Move(s, id, pc))
  {
  }

  lemma OthersFrameGuard(s: State, a: Action, t: State)
    requires Step(s, a) == Some(t) && IsCallerStep(a)
    requires !a.FlushRaise? && !a.EmitBegin? && !a.FlushTarget? && !a.WaitStart? && !a.PollStart?
    ensures t.barriers == s.barriers && t.hist == s.hist && t.clock == s.clock && t.lock == s.lock
    ensures t.sh.next == s.sh.next && (s.sh.requested <= s.sh.next ==> s.sh.requested <= t.sh.requested <= t.sh.next)
  {
    if a.DropBegin? || a.DropRequest? {
      DropFramesGuard(s, a, t);
    }
  }

  lemma DropFramesGuard(s: State, a: Action, t: State)
    requires Step(s, a) == Some(t) && (a.DropBegin? || a.DropRequest?)
    ensures t.barriers == s.barriers && t.hist == s.hist && t.clock == s.clock && t.lock == s.lock
    ensures t.sh.next == s.sh.next && (s.sh.requested <= s.sh.next ==> s.sh.requested <= t.sh.requested <= t.sh.next)
  {
  }

  lemma WorkerKeepsGuard(s: State, outcome: Option<FlushError>, t: State)
    requires BooksOk(s) && GuardOk(s) && WorkerNext(s, outcome) == Some(t)
    ensures GuardOk(t)
  {
    if TouchesBarriers(s.worker) {
      NotifyFramesGuard(s, outcome, t);
    } else if IsFlushStep(s.worker) {
      FlushFramesGuard(s, outcome, t);
    } else {
      WorkerFramesGuard(s, outcome, t);
    }
    SameGuardKeeps(s, t);
  }

  lemma PanicKeepsGuard(s: State, t: State)
    requires GuardOk(s) && PanicNext(s) == Some(t)
    ensures GuardOk(t)
  {
    SameGuardKeeps(s, t);
  }

  lemma BarrierKeepsGuard(s: State, id: nat, t: State)
    requires GuardOk(s) && id in s.barriers && BarrierNext(s, id) == Some(t)
    ensures GuardOk(t)
  {
    BarrierTouches(s, id, t);
    SameGuardKeeps(s, t);
  }

  lemma GuardKept(s: State, a: Action, t: State)
    requires Ledger(s) && FlushesOk(s) && GuardOk(s) && Step(s, a) == Some(t)
    ensures GuardOk(t)
  {
    match a
    case WorkerStep(outcome) => WorkerKeepsGuard(s, outcome, t);
    case WorkerPanic => PanicKeepsGuard(s, t);
    case BarrierStep(id) => BarrierKeepsGuard(s, id, t);
    case EmitFinish => FinishKeepsGuard(s);
    case FlushRaise(id) => RaiseKeepsGuard(s, id, t);
    case EmitBegin(_) => BeginKeepsGuard(s, a, t);
    case _ => CallersKeepGuard(s, a, t);
  }
}
