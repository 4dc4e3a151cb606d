// What every step of the sink protocol keeps.

module AsyncInvariants {
  import opened Basics
  import opened Facade
  import opened AsyncShared
  import opened AsyncProtocol

  // ---- vocabulary ----

  // The highest number that has left the queue (or was never accepted).
  function Cursor(s: State): int {
    s.sh.next - |s.sh.events|
  }

  function ExitItem(a: After): Option<QueuedEvent> {
    if a.Exit? then a.stuck else None
  }

  // The record that was popped and not handed over by a completed write.
  function InFlight(w: Worker): Option<QueuedEvent> {
    match w
    case Writing(item) => Some(item)
    case Notifying(r) => ExitItem(r)
    case Taking(r) => ExitItem(r)
    case Waking(_, r) => ExitItem(r)
    case Halting(stuck) => stuck
    case Finished(stuck) => stuck
    case _ => None
  }

  // The record that was handed over but is not yet counted in `processed`.
  function HandedOver(w: Worker): Option<nat> {
    match w
    case Failing(item, _) => Some(item.sequence)
    case Storing(item) => Some(item.sequence)
    case _ => None
  }

  // The worker's local copy of `processed`, while it has one.
  function LocalProcessed(w: Worker): Option<nat> {
    match w
    case LoadingRequested(p) => Some(p)
    case Flushing(p) => Some(p)
    case Settling(p, _, _) => Some(p)
    case Publishing(p, _) => Some(p)
    case Notifying(Continue(p)) => Some(p)
    case Taking(Continue(p)) => Some(p)
    case Waking(_, Continue(p)) => Some(p)
    case CheckingStop(p) => Some(p)
    case FinalFlushing(p) => Some(p)
    case FinalPublishing(p, _) => Some(p)
    case _ => None
  }

  predicate IsExit(w: Worker) {
    match w
    case Notifying(r) => r.Exit?
    case Taking(r) => r.Exit?
    case Waking(_, r) => r.Exit?
    case Finished(_) => true
    case _ => false
  }

  // The shutdown flush, which only an empty queue that takes no more records sees.
  predicate IsDraining(w: Worker) {
    w.FinalFlushing? || w.FinalPublishing?
  }

  predicate IsRaised(b: Barrier) {
    !b.pc.Raising?
  }

  // The error that writing record `n` ended with, if it was written and failed.
  function WriteError(h: History, n: nat): Option<FlushError> {
    if n in h.writtenAt && h.writtenAt[n] < |h.ops| then h.ops[h.writtenAt[n]].error else None
  }

  // A barrier may report the failure of a write it covers, and of a flush at its target
  // or beyond.
  predicate Concerns(op: WriterOp, target: nat) {
    match op
    case Wrote(sequence, _, _) => sequence <= target
    case FlushedOp(upTo, _) => upTo >= target
  }

  ghost predicate Reported(ops: seq<WriterOp>, target: nat, e: FlushError) {
    exists i :: 0 <= i < |ops| && ops[i].error == Some(e) && Concerns(ops[i], target)
  }

  ghost predicate FlushFailed(ops: seq<WriterOp>, upTo: nat, e: FlushError) {
    exists i :: 0 <= i < |ops| && ops[i] == FlushedOp(upTo, Some(e))
  }

  // ---- the ledger: every number issued is in exactly one place ----

  ghost predicate QueueOk(s: State) {
    && |s.sh.events| <= s.sh.next && |s.sh.events| <= s.sh.capacity
    && |s.hist.accepted| == s.sh.next
    && (forall i :: 0 <= i < |s.sh.events| ==>
          && s.sh.events[i].sequence == Cursor(s) + 1 + i
          && s.sh.events[i].event == s.hist.accepted[Cursor(s) + i])
  }

  // `writtenAt` points at the record's own write.
  ghost predicate IsWriteOf(h: History, n: nat) {
    && n in h.writtenAt && 1 <= n <= |h.accepted|
    && h.writtenAt[n] < |h.ops|
    && h.ops[h.writtenAt[n]].Wrote?
    && h.ops[h.writtenAt[n]].sequence == n
    && h.ops[h.writtenAt[n]].event == h.accepted[n - 1]
  }

  ghost predicate LogSound(s: State) {
    forall n :: n in s.hist.writtenAt ==> IsWriteOf(s.hist, n) && n <= Cursor(s) && n !in s.hist.losses
  }

  ghost predicate LogComplete(h: History) {
    forall i :: 0 <= i < |h.ops| && h.ops[i].Wrote? ==>
      h.ops[i].sequence in h.writtenAt && h.writtenAt[h.ops[i].sequence] == i
  }

  ghost predicate LogOrdered(h: History) {
    forall m, n :: m in h.writtenAt && n in h.writtenAt && m < n ==> h.writtenAt[m] < h.writtenAt[n]
  }

  ghost predicate LogOk(s: State) {
    LogSound(s) && LogComplete(s.hist) && LogOrdered(s.hist)
  }

  ghost predicate PlaceOk(s: State) {
    && (forall n :: n in s.hist.losses ==> 1 <= n <= Cursor(s) && n < s.sh.next && s.hist.losses[n] < s.clock)
    && (forall n | 1 <= n <= Cursor(s) ::
          n in s.hist.writtenAt || n in s.hist.losses || (InFlight(s.worker).Some? && InFlight(s.worker).value.sequence == n))
    && (InFlight(s.worker).Some? ==>
          var item := InFlight(s.worker).value;
          && s.sh.processed < item.sequence <= Cursor(s) && item.sequence <= |s.hist.accepted|
          && item.sequence !in s.hist.writtenAt && item.sequence !in s.hist.losses
          && item.event == s.hist.accepted[item.sequence - 1])
    && (HandedOver(s.worker).Some? ==>
          HandedOver(s.worker).value in s.hist.writtenAt && HandedOver(s.worker).value > s.sh.processed)
    && (forall n :: n in s.hist.writtenAt ==> n <= s.sh.processed || HandedOver(s.worker) == Some(n))
    && s.sh.processed <= Cursor(s)
    && (s.sh.processed > 0 ==> s.sh.processed in s.hist.writtenAt)
    && (LocalProcessed(s.worker).Some? ==> LocalProcessed(s.worker).value == s.sh.processed)
  }

  ghost predicate BooksOk(s: State) {
    && s.sh.stats.accepted == s.sh.next
    && s.sh.stats.overwritten == |s.hist.losses|
    && s.calls == s.sh.stats.accepted + s.sh.stats.dropped + |s.admitted| + (if s.lock.EmitHeld? then 1 else 0)
    && (s.lock.WorkerHeld? <==> s.worker.Deciding?)
    && (s.worker.Deciding? ==> s.sh.events == [])
    && (IsDraining(s.worker) ==> s.sh.shutdown && s.sh.events == [])
    && (s.lock.EmitHeld? ==> s.handles == Open && s.sh.capacity > 0 && s.lock.begun < s.clock)
    && (s.admitted != multiset{} ==> s.handles == Open && s.sh.capacity > 0)
    && (s.handles == Open ==> !s.sh.shutdown)
  }

  ghost predicate Ledger(s: State) {
    QueueOk(s) && LogOk(s) && PlaceOk(s) && BooksOk(s)
  }

  // ---- coverage: what a flush vouches for, and what may still be overwritten ----

  // Every record up to `upTo` that was written was written before operation `at`.
  ghost predicate WrittenBefore(h: History, upTo: nat, at: nat) {
    forall n :: n in h.writtenAt && n <= upTo ==> h.writtenAt[n] < at
  }

  ghost predicate FlushAt(h: History, upTo: nat, at: nat) {
    at < |h.ops| && h.ops[at].FlushedOp? && WrittenBefore(h, upTo, at)
  }

  ghost predicate FlushesOk(s: State) {
    && s.sh.flushed <= s.sh.processed
    && s.sh.requested <= s.sh.next
    && (s.sh.flushed > 0 ==> FlushAt(s.hist, s.sh.flushed, s.hist.mark))
    && (s.worker.Settling? ==>
          FlushAt(s.hist, s.worker.processed, s.worker.at)
          && s.hist.ops[s.worker.at] == FlushedOp(s.worker.processed, s.worker.outcome))
    && (s.worker.Publishing? ==> FlushAt(s.hist, s.worker.processed, s.worker.at))
    && (s.worker.FinalPublishing? ==> FlushAt(s.hist, s.worker.processed, s.worker.at))
  }

  ghost predicate GuardOk(s: State) {
    && (forall id :: id in s.barriers ==>
          && s.barriers[id].target <= s.sh.next
          && (IsRaised(s.barriers[id]) ==> s.barriers[id].target <= s.sh.requested && s.barriers[id].raisedAt < s.clock))
    && (s.lock.EmitHeld? ==>
          && s.lock.requestedSeen <= s.sh.requested
          && forall id :: id in s.barriers && IsRaised(s.barriers[id]) ==>
               && s.barriers[id].raisedAt != s.lock.begun
               && (s.barriers[id].raisedAt < s.lock.begun ==> s.barriers[id].target <= s.lock.requestedSeen))
    && (forall n, id :: n in s.hist.losses && id in s.barriers && IsRaised(s.barriers[id]) && n <= s.barriers[id].target ==>
          s.hist.losses[n] < s.barriers[id].raisedAt)
  }

  ghost predicate ExitOk(s: State) {
    s.sh.stopped ==> IsExit(s.worker)
  }

  // ---- verdicts ----

  // The flush slot against what the flushes covered.
  ghost predicate FlushErrorsOk(s: State) {
    var h := s.hist;
    && h.regular <= s.sh.flushed
    && (s.sh.flushed > h.regular ==> h.finalFlush)
    && (h.finalFlush ==> s.worker.Halting? || IsExit(s.worker))
    && h.goodCover <= s.sh.processed
    && (h.goodCover > 0 ==> FlushAt(h, h.goodCover, h.good) && h.ops[h.good].error.None?)
    && (s.sh.lastFlushError.None? ==> h.regular <= h.goodCover)
    && (s.sh.lastFlushError.Some? ==>
          && h.regular <= s.sh.lastFlushError.value.sequence
          && FlushFailed(h.ops, s.sh.lastFlushError.value.sequence, s.sh.lastFlushError.value.error))
    && (s.worker.Publishing? ==>
          if s.sh.lastFlushError.None? then h.goodCover == s.sh.processed
          else s.sh.lastFlushError.value.sequence == s.sh.processed)
  }

  // The write slot holds the first failure, in sequence order.
  ghost predicate WriteErrorsOk(s: State) {
    var h := s.hist;
    && (s.worker.Failing? ==> WriteError(h, s.worker.item.sequence) == Some(s.worker.error))
    && (s.sh.lastWriteError.None? ==>
          forall n :: n in h.writtenAt ==> WriteError(h, n).None? || (s.worker.Failing? && s.worker.item.sequence == n))
    && (s.sh.lastWriteError.Some? ==>
          var w := s.sh.lastWriteError.value;
          && w.sequence in h.writtenAt && WriteError(h, w.sequence) == Some(w.error)
          && forall n :: n in h.writtenAt && n < w.sequence ==> WriteError(h, n).None?)
  }

  // A successful flush followed the covered writes, or the only flush that covered
  // them was the shutdown one.
  ghost predicate Vouched(s: State, target: nat) {
    target <= s.hist.goodCover || (s.hist.finalFlush && s.hist.regular < target)
  }

  // An evaluation that was covered when it looked answers from the error slots. One
  // that was not answers only once the sink has stopped; if the sink had stopped before
  // it looked, the target never will be covered.
  ghost predicate VerdictOk(s: State, b: Barrier) {
    match b.pc
    case LoadStopped(_) => FellShort(s, b)
    case LoadFlushError(_) => WasCovered(s, b)
    case LoadWriteError(_, e) =>
      && WasCovered(s, b)
      && (e.None? ==> Vouched(s, b.target))
      && (e.Some? ==> Reported(s.hist.ops, b.target, e.value))
    case Done(v) =>
      && b.look.Looked?
      && (if b.look.covered then WasCovered(s, b) && SlotsSay(s, b.target, v)
          else FellShort(s, b) && s.sh.stopped && v == Some(StoppedEarly()))
    case _ => true
  }

  predicate WasCovered(s: State, b: Barrier) {
    b.look.Looked? && b.look.covered && b.target <= s.sh.flushed
  }

  predicate FellShort(s: State, b: Barrier) {
    b.look.Looked? && !b.look.covered && (b.look.stopSeen ==> s.sh.stopped && s.sh.flushed < b.target)
  }

  ghost predicate SlotsSay(s: State, target: nat, verdict: Option<FlushError>) {
    && (verdict.None? ==>
          && Vouched(s, target)
          && forall n :: n in s.hist.writtenAt && n <= target ==> WriteError(s.hist, n).None?)
    && (verdict.Some? ==> Reported(s.hist.ops, target, verdict.value))
  }

  ghost predicate Verdicts(s: State) {
    forall id :: id in s.barriers ==> VerdictOk(s, s.barriers[id])
  }

  // ---- wake-ups ----

  // The worker still has to unpark the waiters. A halting worker does so on its
  // way out.
  predicate Notifies(w: Worker) {
    w.Notifying? || w.Halting?
  }

  // The worker still has to wake whoever holds this waker.
  predicate Delivering(w: Worker, waker: nat) {
    Notifies(w) || w.Taking? || (w.Waking? && waker in w.left)
  }

  predicate Registered(s: State, waker: nat) {
    waker in s.sh.wakers || (s.worker.Waking? && waker in s.worker.left)
  }

  function SecondPollOf(pc: BarrierPc): Option<Caller> {
    match pc
    case LoadFlushed(c) => if c.SecondPoll? then Some(c) else None
    case LoadStopped(c) => if c.SecondPoll? then Some(c) else None
    case LoadFlushError(c) => if c.SecondPoll? then Some(c) else None
    case LoadWriteError(c, _) => if c.SecondPoll? then Some(c) else None
    case Pending(w, woken) => Some(SecondPoll(w, woken))
    case _ => None
  }

  predicate WakeOk(s: State, b: Barrier) {
    && (SecondPollOf(b.pc).Some? && !SecondPollOf(b.pc).value.woken ==> Registered(s, SecondPollOf(b.pc).value.waker))
    && match b.pc
       case LoadStopped(c) =>
         && (c.ByWait? && s.sh.flushed >= b.target ==> Notifies(s.worker))
         && (c.SecondPoll? && !c.woken && s.sh.flushed >= b.target ==> Delivering(s.worker, c.waker))
       case Parking => s.sh.flushed >= b.target || s.sh.stopped ==> Notifies(s.worker)
       case Parked => s.sh.flushed >= b.target || s.sh.stopped ==> Notifies(s.worker)
       case Pending(w, woken) => !woken && (s.sh.flushed >= b.target || s.sh.stopped) ==> Delivering(s.worker, w)
       case _ => true
  }

  // ---- preservation ----

  lemma PopKeepsLedger(s: State)
    requires Ledger(s) && s.worker.Top? && s.lock.Free? && s.sh.events != []
    ensures Ledger(Pop(s))
  {
    var t := Pop(s);
    assert Cursor(t) == Cursor(s) + 1 == s.sh.events[0].sequence;
    assert QueueOk(t);
    assert LogOk(t);
    assert PlaceOk(t);
  }

  // Logging one more write keeps the log sound, complete and in order.
  lemma LogWrite(h: History, n: nat, outcome: Option<FlushError>, g: History)
    requires LogComplete(h) && LogOrdered(h)
    requires forall m :: m in h.writtenAt ==> m < n && h.writtenAt[m] < |h.ops|
    requires 1 <= n <= |h.accepted|
    requires g.ops == h.ops + [Wrote(n, h.accepted[n - 1], outcome)] && g.writtenAt == h.writtenAt[n := |h.ops|]
    requires g.accepted == h.accepted
    ensures LogComplete(g) && LogOrdered(g) && IsWriteOf(g, n)
    ensures forall m :: IsWriteOf(h, m) ==> IsWriteOf(g, m)
  {
  }

  lemma HandOverKeepsLog(s: State, outcome: Option<FlushError>)
    requires LogOk(s) && PlaceOk(s) && s.worker.Writing?
    ensures LogOk(HandOver(s, s.worker.item, outcome))
  {
    var t := HandOver(s, s.worker.item, outcome);
    var n := s.worker.item.sequence;
    forall m | m in s.hist.writtenAt ensures m < n && s.hist.writtenAt[m] < |s.hist.ops| {
      assert IsWriteOf(s.hist, m);
    }
    LogWrite(s.hist, n, outcome, t.hist);
  }

  lemma HandOverKeepsPlace(s: State, outcome: Option<FlushError>)
    requires PlaceOk(s) && s.worker.Writing?
    ensures PlaceOk(HandOver(s, s.worker.item, outcome))
  {
  }

  lemma HandOverKeepsLedger(s: State, outcome: Option<FlushError>)
    requires Ledger(s) && s.worker.Writing?
    ensures Ledger(HandOver(s, s.worker.item, outcome))
  {
    HandOverKeepsLog(s, outcome);
    HandOverKeepsPlace(s, outcome);
  }

  lemma StoreKeepsLedger(s: State)
    requires Ledger(s) && s.worker.Storing?
    ensures Ledger(Store(s, s.worker.item))
  {
  }

  lemma FinishKeepsQueue(s: State)
    requires QueueOk(s) && BooksOk(s) && s.lock.EmitHeld?
    ensures QueueOk(FinishEmit(s))
  {
    var t := FinishEmit(s);
    match Admit(s.sh, s.lock.requestedSeen)
    case Refuse =>
    case Append =>
      assert Cursor(t) == Cursor(s);
    case Evict =>
      assert Cursor(t) == Cursor(s) + 1;
  }

  lemma FinishKeepsLog(s: State)
    requires QueueOk(s) && BooksOk(s) && LogOk(s) && s.lock.EmitHeld?
    ensures LogOk(FinishEmit(s))
  {
    var t := FinishEmit(s);
    assert Cursor(s) <= Cursor(t) <= Cursor(s) + 1;
    assert forall n :: n in t.hist.losses ==> n in s.hist.losses || n == Cursor(s) + 1;
  }

  lemma FinishKeepsPlace(s: State)
    requires QueueOk(s) && BooksOk(s) && PlaceOk(s) && s.lock.EmitHeld?
    ensures PlaceOk(FinishEmit(s))
  {
    var t := FinishEmit(s);
    if Admit(s.sh, s.lock.requestedSeen) == Evict {
      assert Cursor(t) == Cursor(s) + 1 == s.sh.events[0].sequence;
    }
  }

  lemma FinishKeepsBooks(s: State)
    requires QueueOk(s) && BooksOk(s) && PlaceOk(s) && s.lock.EmitHeld?
    ensures BooksOk(FinishEmit(s))
  {
    if Admit(s.sh, s.lock.requestedSeen) == Evict {
      assert s.sh.events[0].sequence !in s.hist.losses;
    }
  }

  lemma FinishKeepsLedger(s: State)
    requires Ledger(s) && s.lock.EmitHeld?
    ensures Ledger(FinishEmit(s))
  {
    FinishKeepsQueue(s);
    FinishKeepsLog(s);
    FinishKeepsPlace(s);
    FinishKeepsBooks(s);
  }

  // Steps that move no record: at most a flush is logged.
  ghost predicate SamePlaces(s: State, t: State) {
    && t.sh.events == s.sh.events && t.sh.next == s.sh.next && t.sh.capacity == s.sh.capacity
    && t.sh.processed == s.sh.processed && t.clock >= s.clock
    && t.hist.accepted == s.hist.accepted && t.hist.writtenAt == s.hist.writtenAt && t.hist.losses == s.hist.losses
    && InFlight(t.worker) == InFlight(s.worker) && HandedOver(t.worker) == HandedOver(s.worker)
    && (LocalProcessed(t.worker).Some? ==> LocalProcessed(t.worker).value == s.sh.processed)
    && s.hist.ops <= t.hist.ops
    && (forall i :: |s.hist.ops| <= i < |t.hist.ops| ==> t.hist.ops[i].FlushedOp?)
  }

  lemma SamePlacesLog(s: State, t: State)
    requires QueueOk(s) && LogOk(s) && SamePlaces(s, t)
    ensures QueueOk(t) && LogOk(t)
  {
    assert forall i :: 0 <= i < |s.hist.ops| ==> t.hist.ops[i] == s.hist.ops[i];
  }

  lemma SamePlacesPlace(s: State, t: State)
    requires PlaceOk(s) && SamePlaces(s, t)
    ensures PlaceOk(t)
  {
  }

  // ... and, besides, leave the counters and the queue lock as they were.
  ghost predicate SameBooks(s: State, t: State) {
    && SamePlaces(s, t)
    && t.sh.stats.accepted == s.sh.stats.accepted && t.sh.stats.dropped == s.sh.stats.dropped
    && t.sh.stats.overwritten == s.sh.stats.overwritten && t.sh.shutdown == s.sh.shutdown
    && t.admitted == s.admitted && t.calls == s.calls && t.handles == s.handles
    && (t.worker.Deciding? ==> t.sh.events == [])
    && (IsDraining(t.worker) ==> t.sh.shutdown && t.sh.events == [])
    && ((t.lock.EmitHeld? && t.lock == s.lock) || (!t.lock.EmitHeld? && !s.lock.EmitHeld?))
    && (t.lock.WorkerHeld? <==> t.worker.Deciding?)
  }

  predicate IsFlushStep(w: Worker) {
    || w.LoadingRequested? || w.Flushing? || w.Settling? || w.Publishing?
    || w.FinalFlushing? || w.FinalPublishing? || w.Halting?
  }

  lemma FlushStepFrames(s: State, outcome: Option<FlushError>, t: State)
    requires LocalProcessed(s.worker).Some? ==> LocalProcessed(s.worker).value == s.sh.processed
    requires s.lock.WorkerHeld? <==> s.worker.Deciding?
    requires IsDraining(s.worker) ==> s.sh.shutdown && s.sh.events == []
    requires WorkerNext(s, outcome) == Some(t) && IsFlushStep(s.worker)
    ensures SameBooks(s, t)
  {
  }

  // Every other worker step leaves the ledger alone too.
  lemma WorkerFrames(s: State, outcome: Option<FlushError>, t: State)
    requires LocalProcessed(s.worker).Some? ==> LocalProcessed(s.worker).value == s.sh.processed
    requires s.lock.WorkerHeld? <==> s.worker.Deciding?
    requires WorkerNext(s, outcome) == Some(t) && !IsFlushStep(s.worker)
    requires !s.worker.Writing? && !s.worker.Storing? && !(s.worker.Top? && s.sh.events != [])
    ensures SameBooks(s, t)
  {
    if IsTelling(s.worker) {
      TellingFrames(s, outcome, t);
    } else {
      IdlingFrames(s, outcome, t);
    }
  }

  predicate IsTelling(w: Worker) {
    w.Notifying? || w.Taking? || w.Waking?
  }

  lemma TellingFrames(s: State, outcome: Option<FlushError>, t: State)
    requires LocalProcessed(s.worker).Some? ==> LocalProcessed(s.worker).value == s.sh.processed
    requires s.lock.WorkerHeld? <==> s.worker.Deciding?
    requires WorkerNext(s, outcome) == Some(t) && IsTelling(s.worker)
    ensures SameBooks(s, t)
  {
  }

  lemma IdlingFrames(s: State, outcome: Option<FlushError>, t: State)
    requires LocalProcessed(s.worker).Some? ==> LocalProcessed(s.worker).value == s.sh.processed
    requires s.lock.WorkerHeld? <==> s.worker.Deciding?
    requires WorkerNext(s, outcome) == Some(t) && !IsFlushStep(s.worker) && !IsTelling(s.worker)
    requires !s.worker.Writing? && !s.worker.Storing? && !(s.worker.Top? && s.sh.events != [])
    ensures SameBooks(s, t)
  {
  }

  lemma PanicFrames(s: State, t: State)
    requires PanicNext(s) == Some(t) && (s.lock.WorkerHeld? <==> s.worker.Deciding?)
    ensures SameBooks(s, t)
  {
  }

  // A barrier's step moves its own program counter, the progress lock and the wakers.
  lemma BarrierTouches(s: State, id: nat, t: State)
    requires id in s.barriers && BarrierNext(s, id) == Some(t)
    ensures id in t.barriers
    ensures t == s.(barriers := s.barriers[id := s.barriers[id].(pc := t.barriers[id].pc, look := t.barriers[id].look)],
                    progressHolder := t.progressHolder, sh := s.sh.(wakers := t.sh.wakers))
    ensures IsRaised(s.barriers[id]) && IsRaised(t.barriers[id])
  {
  }

  lemma SameBooksLedger(s: State, t: State)
    requires Ledger(s) && SameBooks(s, t)
    ensures Ledger(t)
  {
    SamePlacesLog(s, t);
    SamePlacesPlace(s, t);
  }

  // The callers' short steps move the books and nothing else.
  predicate IsCallerStep(a: Action) {
    !a.WorkerStep? && !a.WorkerPanic? && !a.BarrierStep? && !a.EmitFinish?
  }

  lemma CallerFrames(s: State, a: Action, t: State)
    requires Step(s, a) == Some(t) && IsCallerStep(a)
    ensures t.sh.events == s.sh.events && t.sh.next == s.sh.next && t.sh.capacity == s.sh.capacity
    ensures t.sh.processed == s.sh.processed && t.hist == s.hist && t.worker == s.worker && t.clock >= s.clock
    ensures t.sh.flushed == s.sh.flushed && t.sh.stopped == s.sh.stopped && t.sh.wakers == s.sh.wakers
    ensures t.sh.lastFlushError == s.sh.lastFlushError && t.sh.lastWriteError == s.sh.lastWriteError
  {
  }

  lemma StillPlaces(s: State, t: State)
    requires PlaceOk(s)
    requires t.sh.events == s.sh.events && t.sh.next == s.sh.next && t.sh.capacity == s.sh.capacity
    requires t.sh.processed == s.sh.processed && t.hist == s.hist && t.worker == s.worker && t.clock >= s.clock
    ensures SamePlaces(s, t)
  {
  }

  lemma CallerKeepsBooks(s: State, a: Action, t: State)
    requires BooksOk(s) && Step(s, a) == Some(t) && IsCallerStep(a)
    ensures BooksOk(t)
  {
    if a.EmitRefused? || a.EmitAdmit? || a.EmitContended? || a.EmitBegin? {
      EmitterKeepsBooks(s, a, t);
    } else {
      OtherCallerKeepsBooks(s, a, t);
    }
  }

  lemma EmitterKeepsBooks(s: State, a: Action, t: State)
    requires BooksOk(s) && Step(s, a) == Some(t)
    requires a.EmitRefused? || a.EmitAdmit? || a.EmitContended? || a.EmitBegin?
    ensures BooksOk(t)
  {
  }

  lemma OtherCallerKeepsBooks(s: State, a: Action, t: State)
    requires BooksOk(s) && Step(s, a) == Some(t) && IsCallerStep(a)
    requires !a.EmitRefused? && !a.EmitAdmit? && !a.EmitContended? && !a.EmitBegin?
    ensures BooksOk(t)
  {
  }

  lemma WorkerKeepsLedger(s: State, outcome: Option<FlushError>, t: State)
    requires Ledger(s) && WorkerNext(s, outcome) == Some(t)
    ensures Ledger(t)
  {
    if s.worker.Writing? {
      HandOverKeepsLedger(s, outcome);
    } else if s.worker.Storing? {
      StoreKeepsLedger(s);
    } else if s.worker.Top? && s.sh.events != [] {
      PopKeepsLedger(s);
    } else {
      if IsFlushStep(s.worker) { FlushStepFrames(s, outcome, t); } else { WorkerFrames(s, outcome, t); }
      SameBooksLedger(s, t);
    }
  }

  lemma CallerKeepsLedger(s: State, a: Action, t: State)
    requires Ledger(s) && Step(s, a) == Some(t) && IsCallerStep(a)
    ensures Ledger(t)
  {
    CallerFrames(s, a, t);
    StillPlaces(s, t);
    SamePlacesLog(s, t);
    SamePlacesPlace(s, t);
    CallerKeepsBooks(s, a, t);
  }

  lemma PanicKeepsLedger(s: State, t: State)
    requires Ledger(s) && PanicNext(s) == Some(t)
    ensures Ledger(t)
  {
    PanicFrames(s, t);
    SameBooksLedger(s, t);
  }

  lemma BarrierKeepsLedger(s: State, id: nat, t: State)
    requires Ledger(s) && id in s.barriers && BarrierNext(s, id) == Some(t)
    ensures Ledger(t)
  {
    BarrierTouches(s, id, t);
    SameBooksLedger(s, t);
  }

  lemma LedgerKept(s: State, a: Action, t: State)
    requires Ledger(s) && Step(s, a) == Some(t)
    ensures Ledger(t)
  {
    match a
    case WorkerStep(outcome) => WorkerKeepsLedger(s, outcome, t);
    case WorkerPanic => PanicKeepsLedger(s, t);
    case BarrierStep(id) => BarrierKeepsLedger(s, id, t);
    case EmitFinish => FinishKeepsLedger(s);
    case _ => CallerKeepsLedger(s, a, t);
  }

  // Everything but a worker step leaves the log, the flush marks and the error
  // slots alone; a panic sends the worker towards its exit.
  ghost predicate Quiet(s: State, t: State) {
    && t.hist.(accepted := s.hist.accepted, losses := s.hist.losses) == s.hist
    && t.sh.flushed == s.sh.flushed && t.sh.processed == s.sh.processed && t.sh.stopped == s.sh.stopped
    && t.sh.lastFlushError == s.sh.lastFlushError && t.sh.lastWriteError == s.sh.lastWriteError
    && (t.worker == s.worker || (t.worker.Halting? && (s.worker.Writing? || s.worker.Flushing? || s.worker.FinalFlushing?)))
  }

  lemma QuietSteps(s: State, a: Action, t: State)
    requires Step(s, a) == Some(t) && !a.WorkerStep?
    ensures Quiet(s, t)
  {
    match a
    case WorkerPanic =>
    case BarrierStep(id) => BarrierTouches(s, id, t);
    case EmitFinish =>
    case _ => CallerFrames(s, a, t);
  }
}
