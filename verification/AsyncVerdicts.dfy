// Preservation of the error slots and of every barrier's verdict.

module AsyncVerdicts {
  import opened Basics
  import opened AsyncShared
  import opened AsyncProtocol
  import opened AsyncInvariants
  import opened AsyncCoverage

  lemma ReportedGrows(ops: seq<WriterOp>, more: seq<WriterOp>, target: nat, e: FlushError)
    requires Reported(ops, target, e) && ops <= more
    ensures Reported(more, target, e)
  {
    var i :| 0 <= i < |ops| && ops[i].error == Some(e) && Concerns(ops[i], target);
    assert more[i] == ops[i];
  }

  lemma FlushFailedGrows(ops: seq<WriterOp>, more: seq<WriterOp>, upTo: nat, e: FlushError)
    requires FlushFailed(ops, upTo, e) && ops <= more
    ensures FlushFailed(more, upTo, e)
  {
    var i :| 0 <= i < |ops| && ops[i] == FlushedOp(upTo, Some(e));
    assert more[i] == ops[i];
  }

  // ---- the flush slot ----

  lemma HandOverKeepsFlushErrors(s: State, outcome: Option<FlushError>)
    requires LogSound(s) && PlaceOk(s) && FlushErrorsOk(s) && s.worker.Writing?
    ensures FlushErrorsOk(HandOver(s, s.worker.item, outcome))
  {
    var t := HandOver(s, s.worker.item, outcome);
    if s.sh.lastFlushError.Some? {
      FlushFailedGrows(s.hist.ops, t.hist.ops, s.sh.lastFlushError.value.sequence, s.sh.lastFlushError.value.error);
    }
    forall n | n in t.hist.writtenAt && n <= t.hist.goodCover ensures t.hist.writtenAt[n] == s.hist.writtenAt[n] {}
  }

  lemma FlushStepKeepsFlushErrors(s: State, outcome: Option<FlushError>, t: State)
    requires PlaceOk(s) && FlushesOk(s) && FlushErrorsOk(s)
    requires WorkerNext(s, outcome) == Some(t) && IsFlushStep(s.worker)
    ensures FlushErrorsOk(t)
  {
    if (s.worker.Flushing? || s.worker.FinalFlushing?) && s.sh.lastFlushError.Some? {
      FlushFailedGrows(s.hist.ops, t.hist.ops, s.sh.lastFlushError.value.sequence, s.sh.lastFlushError.value.error);
    }
    if s.worker.Settling? && s.worker.outcome.Some? {
      assert FlushFailed(t.hist.ops, s.worker.processed, s.worker.outcome.value) by {
        assert t.hist.ops[s.worker.at] == FlushedOp(s.worker.processed, s.worker.outcome);
      }
    }
  }

  ghost predicate SameFlushErrors(s: State, t: State) {
    && t.sh.flushed == s.sh.flushed && t.sh.processed >= s.sh.processed && t.sh.lastFlushError == s.sh.lastFlushError
    && t.hist.ops == s.hist.ops && t.hist.writtenAt == s.hist.writtenAt
    && t.hist.regular == s.hist.regular && t.hist.finalFlush == s.hist.finalFlush
    && t.hist.good == s.hist.good && t.hist.goodCover == s.hist.goodCover
    && (s.worker.Halting? || IsExit(s.worker) ==> t.worker.Halting? || IsExit(t.worker))
    && (t.worker.Publishing? ==> t.worker == s.worker && t.sh.processed == s.sh.processed)
  }

  lemma SameFlushErrorsKeeps(s: State, t: State)
    requires FlushErrorsOk(s) && SameFlushErrors(s, t)
    ensures FlushErrorsOk(t)
  {
  }

  lemma WorkerFramesFlushErrors(s: State, outcome: Option<FlushError>, t: State)
    requires PlaceOk(s) && WorkerNext(s, outcome) == Some(t) && !IsFlushStep(s.worker) && !s.worker.Writing?
    ensures SameFlushErrors(s, t)
  {
    if IsTelling(s.worker) {
      TellingFramesFlushErrors(s, outcome, t);
    } else {
      RestFramesFlushErrors(s, outcome, t);
    }
  }

  lemma TellingFramesFlushErrors(s: State, outcome: Option<FlushError>, t: State)
    requires WorkerNext(s, outcome) == Some(t) && IsTelling(s.worker)
    ensures SameFlushErrors(s, t)
  {
  }

  lemma RestFramesFlushErrors(s: State, outcome: Option<FlushError>, t: State)
    requires WorkerNext(s, outcome) == Some(t) && !IsFlushStep(s.worker) && !IsTelling(s.worker) && !s.worker.Writing?
    requires s.worker.Storing? ==> s.sh.processed <= s.worker.item.sequence
    ensures SameFlushErrors(s, t)
  {
  }

  lemma WorkerKeepsFlushErrors(s: State, outcome: Option<FlushError>, t: State)
    requires Ledger(s) && FlushesOk(s) && FlushErrorsOk(s) && WorkerNext(s, outcome) == Some(t)
    ensures FlushErrorsOk(t)
  {
    if s.worker.Writing? {
      HandOverKeepsFlushErrors(s, outcome);
    } else if IsFlushStep(s.worker) {
      FlushStepKeepsFlushErrors(s, outcome, t);
    } else {
      WorkerFramesFlushErrors(s, outcome, t);
      SameFlushErrorsKeeps(s, t);
    }
  }

  lemma FlushErrorsKept(s: State, a: Action, t: State)
    requires Ledger(s) && FlushesOk(s) && FlushErrorsOk(s) && Step(s, a) == Some(t)
    ensures FlushErrorsOk(t)
  {
    if a.WorkerStep? {
      WorkerKeepsFlushErrors(s, a.outcome, t);
    } else {
      QuietSteps(s, a, t);
      SameFlushErrorsKeeps(s, t);
    }
  }

  // ---- the write slot ----

  lemma HandOverKeepsWriteErrors(s: State, outcome: Option<FlushError>)
    requires LogSound(s) && PlaceOk(s) && WriteErrorsOk(s) && s.worker.Writing?
    ensures WriteErrorsOk(HandOver(s, s.worker.item, outcome))
    ensures forall n :: n in s.hist.writtenAt ==>
      WriteError(HandOver(s, s.worker.item, outcome).hist, n) == WriteError(s.hist, n)
  {
    var t := HandOver(s, s.worker.item, outcome);
    forall n | n in s.hist.writtenAt
      ensures WriteError(t.hist, n) == WriteError(s.hist, n) && n < s.worker.item.sequence
    {
      assert IsWriteOf(s.hist, n);
    }
  }

  lemma NoteKeepsWriteErrors(s: State, outcome: Option<FlushError>, t: State)
    requires LogSound(s) && PlaceOk(s) && WriteErrorsOk(s) && s.worker.Failing? && WorkerNext(s, outcome) == Some(t)
    ensures WriteErrorsOk(t)
  {
  }

  ghost predicate SameWriteErrors(s: State, t: State) {
    && t.sh.lastWriteError == s.sh.lastWriteError
    && t.hist.writtenAt == s.hist.writtenAt && s.hist.ops <= t.hist.ops
    && (t.worker.Failing? ==> t.worker == s.worker) && (s.worker.Failing? ==> t.worker == s.worker)
  }

  lemma SameWriteErrorsKeeps(s: State, t: State)
    requires LogSound(s) && WriteErrorsOk(s) && SameWriteErrors(s, t)
    ensures WriteErrorsOk(t)
    ensures forall n :: n in s.hist.writtenAt ==> WriteError(t.hist, n) == WriteError(s.hist, n)
  {
    forall n | n in s.hist.writtenAt ensures WriteError(t.hist, n) == WriteError(s.hist, n) {
      assert IsWriteOf(s.hist, n);
    }
  }

  lemma WorkerFramesWriteErrors(s: State, outcome: Option<FlushError>, t: State)
    requires WorkerNext(s, outcome) == Some(t) && !s.worker.Writing? && !s.worker.Failing?
    ensures SameWriteErrors(s, t)
  {
    if s.worker.Flushing? || s.worker.FinalFlushing? {
      assert t.hist.ops == s.hist.ops + [FlushedOp(s.worker.processed, outcome)];
    }
  }

  // The log only grows, by records beyond `processed`, and keeps every outcome.
  ghost predicate LogGrows(s: State, t: State) {
    && s.hist.ops <= t.hist.ops
    && (forall n :: n in s.hist.writtenAt ==> n in t.hist.writtenAt && WriteError(t.hist, n) == WriteError(s.hist, n))
    && (forall n :: n in t.hist.writtenAt && n !in s.hist.writtenAt ==> n > s.sh.processed)
  }

  lemma WorkerKeepsWriteErrors(s: State, outcome: Option<FlushError>, t: State)
    requires Ledger(s) && WriteErrorsOk(s) && WorkerNext(s, outcome) == Some(t)
    ensures WriteErrorsOk(t) && LogGrows(s, t)
  {
    if s.worker.Writing? {
      HandOverKeepsWriteErrors(s, outcome);
      HandOverGrowsLog(s, outcome);
    } else if s.worker.Failing? {
      NoteKeepsWriteErrors(s, outcome, t);
    } else {
      WorkerFramesWriteErrors(s, outcome, t);
      SameWriteErrorsKeeps(s, t);
    }
  }

  lemma HandOverGrowsLog(s: State, outcome: Option<FlushError>)
    requires LogSound(s) && PlaceOk(s) && WriteErrorsOk(s) && s.worker.Writing?
    ensures LogGrows(s, HandOver(s, s.worker.item, outcome))
  {
    HandOverKeepsWriteErrors(s, outcome);
  }

  lemma WriteErrorsKept(s: State, a: Action, t: State)
    requires Ledger(s) && WriteErrorsOk(s) && Step(s, a) == Some(t)
    ensures WriteErrorsOk(t) && LogGrows(s, t)
  {
    if a.WorkerStep? {
      WorkerKeepsWriteErrors(s, a.outcome, t);
    } else {
      QuietSteps(s, a, t);
      SameWriteErrorsKeeps(s, t);
    }
  }

  // ---- verdicts ----

  // What a verdict depends on only grows, and never for numbers it covers.
  ghost predicate VerdictsFrame(s: State, t: State) {
    && s.sh.flushed <= t.sh.flushed && s.sh.flushed <= s.sh.processed && (s.sh.stopped ==> t.sh.stopped)
    && (s.sh.stopped ==> t.sh.flushed == s.sh.flushed)
    && s.hist.goodCover <= t.hist.goodCover && LogGrows(s, t)
    && (s.hist.finalFlush ==> t.hist.finalFlush && t.hist.regular == s.hist.regular)
  }

  lemma VerdictStays(s: State, t: State, b: Barrier)
    requires VerdictOk(s, b) && VerdictsFrame(s, t)
    ensures VerdictOk(t, b)
  {
    match b.pc
    case LoadWriteError(_, e) => if e.Some? { ReportedGrows(s.hist.ops, t.hist.ops, b.target, e.value); }
    case Done(v) =>
      if v.Some? && b.look.covered { ReportedGrows(s.hist.ops, t.hist.ops, b.target, v.value); }
    case _ =>
  }

  lemma WorkerGrows(s: State, outcome: Option<FlushError>, t: State)
    requires FlushesOk(s) && FlushErrorsOk(s) && PlaceOk(s) && ExitOk(s) && WorkerNext(s, outcome) == Some(t)
    ensures s.sh.flushed <= t.sh.flushed && s.hist.goodCover <= t.hist.goodCover
    ensures s.sh.stopped ==> t.sh.stopped && t.sh.flushed == s.sh.flushed
    ensures s.hist.finalFlush ==> t.hist.finalFlush && t.hist.regular == s.hist.regular
  {
    if IsFlushStep(s.worker) {
      FlushStepGrows(s, outcome, t);
    } else {
      PlainStepGrows(s, outcome, t);
    }
  }

  lemma FlushStepGrows(s: State, outcome: Option<FlushError>, t: State)
    requires s.sh.flushed <= s.sh.processed && s.hist.goodCover <= s.sh.processed
    requires s.hist.finalFlush ==> s.worker.Halting? || IsExit(s.worker)
    requires LocalProcessed(s.worker).Some? ==> LocalProcessed(s.worker).value == s.sh.processed
    requires WorkerNext(s, outcome) == Some(t) && IsFlushStep(s.worker)
    ensures s.sh.flushed <= t.sh.flushed && s.hist.goodCover <= t.hist.goodCover && (s.sh.stopped ==> t.sh.stopped)
    ensures s.hist.finalFlush ==> t.hist.finalFlush && t.hist.regular == s.hist.regular
  {
  }

  lemma PlainStepGrows(s: State, outcome: Option<FlushError>, t: State)
    requires WorkerNext(s, outcome) == Some(t) && !IsFlushStep(s.worker)
    ensures s.sh.flushed == t.sh.flushed && s.hist.goodCover == t.hist.goodCover && s.sh.stopped == t.sh.stopped
    ensures t.hist.finalFlush == s.hist.finalFlush && t.hist.regular == s.hist.regular
  {
  }

  lemma HistoryGrows(s: State, a: Action, t: State)
    requires Ledger(s) && FlushesOk(s) && FlushErrorsOk(s) && WriteErrorsOk(s) && ExitOk(s) && Step(s, a) == Some(t)
    ensures VerdictsFrame(s, t)
  {
    WriteErrorsKept(s, a, t);
    MarksGrow(s, a, t);
  }

  lemma MarksGrow(s: State, a: Action, t: State)
    requires FlushesOk(s) && FlushErrorsOk(s) && PlaceOk(s) && ExitOk(s) && Step(s, a) == Some(t)
    ensures s.sh.flushed <= t.sh.flushed && s.hist.goodCover <= t.hist.goodCover
    ensures s.sh.stopped ==> t.sh.stopped && t.sh.flushed == s.sh.flushed
    ensures s.hist.finalFlush ==> t.hist.finalFlush && t.hist.regular == s.hist.regular
  {
    if a.WorkerStep? {
      WorkerGrows(s, a.outcome, t);
    } else {
      QuietSteps(s, a, t);
    }
  }

  // A barrier that finds its target flushed has the flush it needs vouched for,
  // unless the flush slot reports otherwise.
  lemma FlushSlotVouches(s: State, target: nat)
    requires FlushErrorsOk(s) && target <= s.sh.flushed
    ensures FlushErrorFor(s.sh, target).None? ==> Vouched(s, target)
    ensures FlushErrorFor(s.sh, target).Some? ==> Reported(s.hist.ops, target, FlushErrorFor(s.sh, target).value)
  {
    if FlushErrorFor(s.sh, target).Some? {
      var w := s.sh.lastFlushError.value;
      var i :| 0 <= i < |s.hist.ops| && s.hist.ops[i] == FlushedOp(w.sequence, Some(w.error));
      assert Concerns(s.hist.ops[i], target);
    }
  }

  // The write slot is exact for every covered record.
  lemma WriteSlotExact(s: State, target: nat)
    requires LogSound(s) && PlaceOk(s) && FlushesOk(s) && WriteErrorsOk(s) && target <= s.sh.flushed
    ensures WriteErrorFor(s.sh, target).None? <==>
      forall n :: n in s.hist.writtenAt && n <= target ==> WriteError(s.hist, n).None?
    ensures WriteErrorFor(s.sh, target).Some? ==> Reported(s.hist.ops, target, WriteErrorFor(s.sh, target).value)
  {
    if s.sh.lastWriteError.Some? {
      var n := s.sh.lastWriteError.value.sequence;
      assert IsWriteOf(s.hist, n);
      assert s.hist.ops[s.hist.writtenAt[n]].error == Some(s.sh.lastWriteError.value.error);
    }
  }

  lemma BarrierReaches(s: State, id: nat, t: State)
    requires Ledger(s) && FlushesOk(s) && FlushErrorsOk(s) && WriteErrorsOk(s)
    requires id in s.barriers && VerdictOk(s, s.barriers[id]) && BarrierNext(s, id) == Some(t)
    ensures id in t.barriers && VerdictOk(t, t.barriers[id])
  {
    var b := s.barriers[id];
    if b.pc.LoadFlushError? {
      FlushSlotReaches(s, id, t);
    } else if b.pc.LoadWriteError? {
      WriteSlotReaches(s, id, t);
    } else {
      OthersReach(s, id, t);
    }
  }

  lemma FlushSlotReaches(s: State, id: nat, t: State)
    requires FlushErrorsOk(s) && id in s.barriers && s.barriers[id].pc.LoadFlushError?
    requires VerdictOk(s, s.barriers[id]) && BarrierNext(s, id) == Some(t)
    ensures id in t.barriers && VerdictOk(t, t.barriers[id])
  {
    FlushSlotVouches(s, s.barriers[id].target);
  }

  lemma WriteSlotReaches(s: State, id: nat, t: State)
    requires LogSound(s) && PlaceOk(s) && FlushesOk(s) && WriteErrorsOk(s)
    requires id in s.barriers && s.barriers[id].pc.LoadWriteError?
    requires VerdictOk(s, s.barriers[id]) && BarrierNext(s, id) == Some(t)
    ensures id in t.barriers && VerdictOk(t, t.barriers[id])
  {
    var b := s.barriers[id];
    WriteSlotVerdict(s, b, t.barriers[id]);
    SameMemoryVerdict(s, t, t.barriers[id]);
  }

  lemma WriteSlotVerdict(s: State, b: Barrier, d: Barrier)
    requires LogSound(s) && PlaceOk(s) && FlushesOk(s) && WriteErrorsOk(s) && b.pc.LoadWriteError? && VerdictOk(s, b)
    requires d == b.(pc := Done(if b.pc.flushError.Some? then b.pc.flushError else WriteErrorFor(s.sh, b.target)))
    ensures VerdictOk(s, d)
  {
    WriteSlotExact(s, b.target);
  }

  lemma SameMemoryVerdict(s: State, t: State, b: Barrier)
    requires t.sh == s.sh && t.hist == s.hist && VerdictOk(s, b)
    ensures VerdictOk(t, b)
  {
  }

  lemma OthersReach(s: State, id: nat, t: State)
    requires id in s.barriers && !s.barriers[id].pc.LoadFlushError? && !s.barriers[id].pc.LoadWriteError?
    requires VerdictOk(s, s.barriers[id]) && BarrierNext(s, id) == Some(t)
    ensures id in t.barriers && VerdictOk(t, t.barriers[id])
  {
  }

  // Every other barrier stands as it did, up to being woken or unparked.
  ghost predicate SameVerdicts(s: State, t: State, except: Option<nat>) {
    && s.barriers.Keys <= t.barriers.Keys
    && forall i | i in t.barriers && except != Some(i) ::
         if i in s.barriers then VerdictOk(t, s.barriers[i]) ==> VerdictOk(t, t.barriers[i])
         else VerdictOk(t, t.barriers[i])
  }

  lemma WorkerFramesVerdicts(s: State, outcome: Option<FlushError>, t: State)
    requires WorkerNext(s, outcome) == Some(t)
    ensures SameVerdicts(s, t, None)
  {
    WorkerTells(s, outcome, t);
    forall id | id in t.barriers && VerdictOk(t, s.barriers[id]) ensures VerdictOk(t, t.barriers[id]) {
      ToldVerdict(t, s.worker, s.barriers[id]);
    }
  }

  lemma ToldVerdict(t: State, w: Worker, b: Barrier)
    requires VerdictOk(t, b)
    ensures VerdictOk(t, Told(w, b))
  {
  }

  lemma CallersFrameVerdicts(s: State, a: Action, t: State)
    requires Step(s, a) == Some(t) && (IsCallerStep(a) || a.EmitFinish? || a.WorkerPanic?)
    ensures SameVerdicts(s, t, None)
  {
  }

  lemma BarrierFramesVerdicts(s: State, id: nat, t: State)
    requires id in s.barriers && BarrierNext(s, id) == Some(t)
    ensures SameVerdicts(s, t, Some(id))
  {
    BarrierTouches(s, id, t);
  }

  lemma SameVerdictsKeeps(s: State, t: State, except: Option<nat>)
    requires Verdicts(s) && VerdictsFrame(s, t) && SameVerdicts(s, t, except)
    requires except.Some? ==> except.value in t.barriers && VerdictOk(t, t.barriers[except.value])
    ensures Verdicts(t)
  {
    forall i | i in t.barriers ensures VerdictOk(t, t.barriers[i]) {
      if i in s.barriers { VerdictStays(s, t, s.barriers[i]); }
    }
  }

  lemma VerdictsKept(s: State, a: Action, t: State)
    requires Ledger(s) && FlushesOk(s) && FlushErrorsOk(s) && WriteErrorsOk(s) && ExitOk(s) && Verdicts(s)
    requires Step(s, a) == Some(t)
    ensures Verdicts(t)
  {
    HistoryGrows(s, a, t);
    if a.BarrierStep? {
      BarrierSteps(s, a, t);
      VerdictOfOne(s, a.id);
      BarrierReaches(s, a.id, t);
      BarrierKeepsVerdicts(s, a.id, t);
    } else {
      OthersKeepVerdicts(s, a, t);
    }
  }

  lemma BarrierSteps(s: State, a: Action, t: State)
    requires Step(s, a) == Some(t) && a.BarrierStep?
    ensures a.id in s.barriers && BarrierNext(s, a.id) == Some(t)
  {
  }

  lemma VerdictOfOne(s: State, id: nat)
    requires Verdicts(s) && id in s.barriers
    ensures VerdictOk(s, s.barriers[id])
  {
  }

  lemma BarrierKeepsVerdicts(s: State, id: nat, t: State)
    requires Verdicts(s) && VerdictsFrame(s, t) && id in s.barriers && BarrierNext(s, id) == Some(t)
    requires id in t.barriers && VerdictOk(t, t.barriers[id])
    ensures Verdicts(t)
  {
    BarrierFramesVerdicts(s, id, t);
    SameVerdictsKeeps(s, t, Some(id));
  }

  lemma OthersKeepVerdicts(s: State, a: Action, t: State)
    requires Verdicts(s) && VerdictsFrame(s, t) && Step(s, a) == Some(t) && !a.BarrierStep?
    ensures Verdicts(t)
  {
    OthersFrameVerdicts(s, a, t);
    SameVerdictsKeeps(s, t, None);
  }

  lemma OthersFrameVerdicts(s: State, a: Action, t: State)
    requires Step(s, a) == Some(t) && !a.BarrierStep?
    ensures SameVerdicts(s, t, None)
  {
    if a.WorkerStep? {
      WorkerFramesVerdicts(s, a.outcome, t);
    } else {
      CallersFrameVerdicts(s, a, t);
    }
  }
}
