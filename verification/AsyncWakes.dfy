// Preservation of the wake-up invariant: a waiter or future whose result is there
// always has a notification coming.

module AsyncWakes {
  import opened Basics
  import opened AsyncShared
  import opened AsyncProtocol
  import opened AsyncInvariants
  import opened AsyncCoverage

  ghost predicate AllWakeOk(s: State) {
    forall id :: id in s.barriers ==> WakeOk(s, s.barriers[id])
  }

  // The progress lock is held by exactly the barrier that is inside it.
  ghost predicate HolderOk(s: State) {
    && (forall id :: id in s.barriers ==> (HoldsProgress(s.barriers[id].pc) <==> s.progressHolder == Some(id)))
    && (s.progressHolder.Some? ==> s.progressHolder.value in s.barriers)
  }

  // A worker step that publishes nothing and ends no notification.
  lemma PlainWorkerStep(s: State, outcome: Option<FlushError>, t: State)
    requires WorkerNext(s, outcome) == Some(t)
    requires !s.worker.Publishing? && !s.worker.FinalPublishing? && !s.worker.Halting?
    requires !s.worker.Notifying? && !s.worker.Taking? && !s.worker.Waking?
    ensures t.sh.flushed == s.sh.flushed && t.sh.stopped == s.sh.stopped && t.sh.wakers == s.sh.wakers
    ensures t.barriers == s.barriers && t.progressHolder == s.progressHolder
    ensures !t.worker.Notifying? && !t.worker.Taking? && !t.worker.Waking?
    ensures IsExit(s.worker) ==> IsExit(t.worker)
  {
    if IsFlushStep(s.worker) {
      PlainFlushStep(s, outcome, t);
    }
  }

  lemma PlainFlushStep(s: State, outcome: Option<FlushError>, t: State)
    requires WorkerNext(s, outcome) == Some(t) && IsFlushStep(s.worker)
    requires !s.worker.Publishing? && !s.worker.FinalPublishing? && !s.worker.Halting?
    ensures t.sh.flushed == s.sh.flushed && t.sh.stopped == s.sh.stopped && t.sh.wakers == s.sh.wakers
    ensures t.barriers == s.barriers && t.progressHolder == s.progressHolder
    ensures !t.worker.Notifying? && !t.worker.Taking? && !t.worker.Waking?
  {
  }

  lemma PlainKeepsWake(s: State, t: State, b: Barrier)
    requires WakeOk(s, b)
    requires !s.worker.Halting? && !s.worker.Notifying? && !s.worker.Taking? && !s.worker.Waking?
    requires t.sh.flushed == s.sh.flushed && t.sh.stopped == s.sh.stopped && t.sh.wakers == s.sh.wakers
    requires !t.worker.Waking?
    ensures WakeOk(t, b)
  {
  }

  // Publishing and halting head straight for a notification.
  lemma AnnounceKeepsWake(s: State, outcome: Option<FlushError>, t: State, b: Barrier)
    requires WorkerNext(s, outcome) == Some(t) && WakeOk(s, b)
    requires s.worker.Publishing? || s.worker.FinalPublishing? || s.worker.Halting?
    ensures WakeOk(t, b)
  {
  }

  // notify_all leaves nobody parked, and nobody inside the progress lock.
  lemma NotifyKeepsWake(s: State, outcome: Option<FlushError>, t: State, b: Barrier)
    requires WorkerNext(s, outcome) == Some(t) && s.worker.Notifying? && WakeOk(s, b)
    requires !HoldsProgress(b.pc)
    ensures WakeOk(t, Unpark(b))
  {
  }

  lemma TakeKeepsWake(s: State, outcome: Option<FlushError>, t: State, b: Barrier)
    requires WorkerNext(s, outcome) == Some(t) && s.worker.Taking? && WakeOk(s, b)
    ensures WakeOk(t, b)
  {
  }

  lemma WakingKeepsWake(s: State, outcome: Option<FlushError>, t: State, b: Barrier)
    requires WorkerNext(s, outcome) == Some(t) && s.worker.Waking? && WakeOk(s, b)
    ensures WakeOk(t, if s.worker.left != [] then WakeBarrier(b, s.worker.left[0]) else b)
  {
    if s.worker.left != [] {
      assert forall w :: w in s.worker.left ==> w == s.worker.left[0] || w in s.worker.left[1..];
    }
  }

  lemma ToldKeepsWake(s: State, outcome: Option<FlushError>, t: State, b: Barrier)
    requires WorkerNext(s, outcome) == Some(t) && WakeOk(s, b)
    requires s.worker.Notifying? ==> !HoldsProgress(b.pc)
    ensures WakeOk(t, Told(s.worker, b))
  {
    match s.worker
    case Publishing(_, _) => AnnounceKeepsWake(s, outcome, t, b);
    case FinalPublishing(_, _) => AnnounceKeepsWake(s, outcome, t, b);
    case Halting(_) => AnnounceKeepsWake(s, outcome, t, b);
    case Notifying(_) => NotifyKeepsWake(s, outcome, t, b);
    case Taking(_) => TakeKeepsWake(s, outcome, t, b);
    case Waking(_, _) => WakingKeepsWake(s, outcome, t, b);
    case _ => PlainStepKeepsWake(s, outcome, t, b);
  }

  lemma WorkerKeepsWake(s: State, outcome: Option<FlushError>, t: State)
    requires WorkerNext(s, outcome) == Some(t) && AllWakeOk(s) && HolderOk(s)
    ensures AllWakeOk(t)
  {
    WorkerTells(s, outcome, t);
    forall id | id in t.barriers ensures WakeOk(t, t.barriers[id]) {
      ToldKeepsWake(s, outcome, t, s.barriers[id]);
    }
  }

  lemma PlainStepKeepsWake(s: State, outcome: Option<FlushError>, t: State, b: Barrier)
    requires WorkerNext(s, outcome) == Some(t) && WakeOk(s, b)
    requires !s.worker.Publishing? && !s.worker.FinalPublishing? && !s.worker.Halting?
    requires !s.worker.Notifying? && !s.worker.Taking? && !s.worker.Waking?
    ensures t.barriers == s.barriers && WakeOk(t, b)
  {
    PlainWorkerStep(s, outcome, t);
    PlainKeepsWake(s, t, b);
  }

  lemma WorkerKeepsHolder(s: State, outcome: Option<FlushError>, t: State)
    requires WorkerNext(s, outcome) == Some(t) && HolderOk(s)
    ensures HolderOk(t)
  {
    WorkerTells(s, outcome, t);
    forall id | id in t.barriers ensures HoldsProgress(t.barriers[id].pc) <==> t.progressHolder == Some(id) {
      assert id in s.barriers;
      ToldHolds(s.worker, s.barriers[id]);
    }
  }

  lemma ToldHolds(w: Worker, b: Barrier)
    ensures HoldsProgress(Told(w, b).pc) <==> HoldsProgress(b.pc)
  {
  }

  lemma WorkerKeepsExit(s: State, outcome: Option<FlushError>, t: State)
    requires WorkerNext(s, outcome) == Some(t) && ExitOk(s)
    ensures ExitOk(t)
  {
    if IsExit(s.worker) {
      ExitStays(s, outcome, t);
    } else {
      StoppedOnlyByHalting(s, outcome, t);
    }
  }

  lemma ExitStays(s: State, outcome: Option<FlushError>, t: State)
    requires WorkerNext(s, outcome) == Some(t) && IsExit(s.worker)
    ensures IsExit(t.worker)
  {
  }

  lemma StoppedOnlyByHalting(s: State, outcome: Option<FlushError>, t: State)
    requires WorkerNext(s, outcome) == Some(t) && !IsExit(s.worker) && !s.sh.stopped
    ensures t.sh.stopped ==> IsExit(t.worker)
  {
  }

  lemma MoverKeepsWake(s: State, id: nat, t: State)
    requires id in s.barriers && BarrierNext(s, id) == Some(t) && WakeOk(s, s.barriers[id])
    ensures id in t.barriers && WakeOk(t, t.barriers[id])
  {
  }

  lemma BarrierKeepsWake(s: State, id: nat, t: State)
    requires id in s.barriers && BarrierNext(s, id) == Some(t) && AllWakeOk(s)
    ensures AllWakeOk(t)
  {
    MoverKeepsWake(s, id, t);
    BarrierTouches(s, id, t);
    assert forall w :: w in s.sh.wakers ==> w in t.sh.wakers;
    forall i | i in t.barriers && i != id ensures WakeOk(t, t.barriers[i]) {
      assert WakeOk(s, s.barriers[i]);
    }
  }

  lemma BarrierKeepsHolder(s: State, id: nat, t: State)
    requires id in s.barriers && BarrierNext(s, id) == Some(t) && HolderOk(s)
    ensures HolderOk(t)
  {
    MoverHolds(s, id, t);
    BarrierTouches(s, id, t);
  }

  // The progress lock passes between the mover and nobody.
  lemma MoverHolds(s: State, id: nat, t: State)
    requires id in s.barriers && BarrierNext(s, id) == Some(t)
    requires HoldsProgress(s.barriers[id].pc) <==> s.progressHolder == Some(id)
    ensures id in t.barriers && (HoldsProgress(t.barriers[id].pc) <==> t.progressHolder == Some(id))
    ensures t.progressHolder != s.progressHolder ==>
      (s.progressHolder == None || s.progressHolder == Some(id)) && (t.progressHolder == None || t.progressHolder == Some(id))
  {
  }

  lemma QuietKeepsWake(s: State, t: State, b: Barrier)
    requires WakeOk(s, b) && Quiet(s, t) && t.sh.wakers == s.sh.wakers
    ensures WakeOk(t, b)
  {
  }

  lemma CallersKeepWake(s: State, a: Action, t: State)
    requires Step(s, a) == Some(t) && (IsCallerStep(a) || a.EmitFinish? || a.WorkerPanic?)
    requires AllWakeOk(s) && HolderOk(s)
    ensures AllWakeOk(t) && HolderOk(t)
  {
    CallersStart(s, a, t);
    CallersQuiet(s, a, t);
    forall i | i in t.barriers ensures WakeOk(t, t.barriers[i]) {
      if i in s.barriers && t.barriers[i] == s.barriers[i] { QuietKeepsWake(s, t, s.barriers[i]); }
    }
  }

  // A call that starts or restarts a barrier leaves it where nothing is owed to it.
  lemma CallersStart(s: State, a: Action, t: State)
    requires Step(s, a) == Some(t) && (IsCallerStep(a) || a.EmitFinish? || a.WorkerPanic?)
    requires HolderOk(s)
    ensures HolderOk(t)
    ensures forall i | i in t.barriers ::
      (i in s.barriers && t.barriers[i] == s.barriers[i]) || WakeOk(t, t.barriers[i])
  {
    if a.FlushTarget? || a.FlushRaise? || a.WaitStart? || a.PollStart? {
      BarrierStarts(s, a, t);
    } else {
      BarriersStand(s, a, t);
    }
  }

  lemma BarrierStarts(s: State, a: Action, t: State)
    requires Step(s, a) == Some(t) && (a.FlushTarget? || a.FlushRaise? || a.WaitStart? || a.PollStart?)
    requires HolderOk(s)
    ensures HolderOk(t)
    ensures forall i | i in t.barriers ::
      (i in s.barriers && t.barriers[i] == s.barriers[i]) || WakeOk(t, t.barriers[i])
  {
    if a.FlushTarget? || a.FlushRaise? {
      RequestStarts(s, a, t);
    } else {
      CallStarts(s, a, t);
    }
  }

  lemma RequestStarts(s: State, a: Action, t: State)
    requires Step(s, a) == Some(t) && (a.FlushTarget? || a.FlushRaise?) && HolderOk(s)
    ensures HolderOk(t)
    ensures forall i | i in t.barriers ::
      (i in s.barriers && t.barriers[i] == s.barriers[i]) || WakeOk(t, t.barriers[i])
  {
    assert t.progressHolder == s.progressHolder;
  }

  lemma CallStarts(s: State, a: Action, t: State)
    requires Step(s, a) == Some(t) && (a.WaitStart? || a.PollStart?) && HolderOk(s)
    ensures HolderOk(t)
    ensures forall i | i in t.barriers ::
      (i in s.barriers && t.barriers[i] == s.barriers[i]) || WakeOk(t, t.barriers[i])
  {
    CallMoves(s, a, t);
  }

  lemma BarriersStand(s: State, a: Action, t: State)
    requires Step(s, a) == Some(t) && (IsCallerStep(a) || a.EmitFinish? || a.WorkerPanic?)
    requires !a.FlushTarget? && !a.FlushRaise? && !a.WaitStart? && !a.PollStart?
    ensures t.barriers == s.barriers && t.progressHolder == s.progressHolder
  {
    if a.WorkerPanic? {
      PanicStands(s, t);
    } else if a.DropBegin? || a.DropRequest? {
      DropStands(s, a, t);
    }
  }

  lemma PanicStands(s: State, t: State)
    requires PanicNext(s) == Some(t)
    ensures t.barriers == s.barriers && t.progressHolder == s.progressHolder
  {
  }

  lemma DropStands(s: State, a: Action, t: State)
    requires Step(s, a) == Some(t) && (a.DropBegin? || a.DropRequest?)
    ensures t.barriers == s.barriers && t.progressHolder == s.progressHolder
  {
  }

  lemma CallersQuiet(s: State, a: Action, t: State)
    requires Step(s, a) == Some(t) && (IsCallerStep(a) || a.EmitFinish? || a.WorkerPanic?)
    ensures Quiet(s, t) && t.sh.wakers == s.sh.wakers
  {
    QuietSteps(s, a, t);
  }

  lemma WakesKept(s: State, a: Action, t: State)
    requires Step(s, a) == Some(t) && AllWakeOk(s) && HolderOk(s) && ExitOk(s)
    ensures AllWakeOk(t) && HolderOk(t) && ExitOk(t)
  {
    match a
    case WorkerStep(outcome) =>
      WorkerKeepsWake(s, outcome, t);
      WorkerKeepsHolder(s, outcome, t);
      WorkerKeepsExit(s, outcome, t);
    case BarrierStep(id) =>
      BarrierKeepsWake(s, id, t);
      BarrierKeepsHolder(s, id, t);
      BarrierTouches(s, id, t);
    case _ =>
      CallersKeepWake(s, a, t);
      QuietSteps(s, a, t);
  }
}
