// What the sink promises its callers, over every run of the protocol.

module AsyncTheorems {
  import opened Basics
  import opened Facade
  import opened AsyncShared
  import opened AsyncProtocol
  import opened AsyncInvariants
  import opened AsyncCoverage
  import opened AsyncVerdicts
  import opened AsyncWakes

  ghost predicate Inv(s: State) {
    && Ledger(s) && FlushesOk(s) && GuardOk(s)
    && FlushErrorsOk(s) && WriteErrorsOk(s) && Verdicts(s)
    && AllWakeOk(s) && HolderOk(s) && ExitOk(s)
  }

  lemma InvKept(s: State, a: Action, t: State)
    requires Inv(s) && Step(s, a) == Some(t)
    ensures Inv(t)
  {
    LedgerKept(s, a, t);
    FlushesKept(s, a, t);
    GuardKept(s, a, t);
    FlushErrorsKept(s, a, t);
    WriteErrorsKept(s, a, t);
    VerdictsKept(s, a, t);
    WakesKept(s, a, t);
  }

  lemma {:induction false} ReplayKeeps(s: State, acts: seq<Action>, t: State)
    requires Inv(s) && Replay(s, acts) == Some(t)
    ensures Inv(t)
    decreases |acts|
  {
    if acts != [] {
      var before := Replay(s, acts[..|acts| - 1]).value;
      ReplayKeeps(s, acts[..|acts| - 1], before);
      InvKept(before, acts[|acts| - 1], t);
    }
  }

  lemma ReachableInv(s: State, capacity: nat, overflow: OverflowPolicy, acts: seq<Action>)
    requires Reachable(s, capacity, overflow, acts)
    ensures Inv(s)
  {
    ReplayKeeps(Init(capacity, overflow), acts, s);
  }

  // ---- barrier completeness ----

  // Record `n` went to the writer, unchanged, before some completed flush.
  ghost predicate HandedOverBeforeFlush(h: History, n: nat) {
    1 <= n <= |h.accepted| && exists i, j :: IsWriteThenFlush(h, n, i, j)
  }

  predicate IsWriteThenFlush(h: History, n: nat, i: nat, j: nat)
    requires 1 <= n <= |h.accepted|
  {
    && i < j < |h.ops| && h.ops[i].Wrote? && h.ops[j].FlushedOp?
    && h.ops[i].sequence == n && h.ops[i].event == h.accepted[n - 1]
  }

  // Once a raised barrier's target is flushed, every record up to it was handed
  // over before a completed flush, or was overwritten by an emit whose section had
  // begun before the barrier raised its request.
  lemma BarrierComplete(
      s: State, capacity: nat, overflow: OverflowPolicy, acts: seq<Action>, id: nat, n: nat)
    requires Reachable(s, capacity, overflow, acts)
    requires id in s.barriers && IsRaised(s.barriers[id])
    requires s.barriers[id].target <= s.sh.flushed && 1 <= n <= s.barriers[id].target
    ensures n in s.hist.losses ==> s.hist.losses[n] < s.barriers[id].raisedAt
    ensures n !in s.hist.losses ==> HandedOverBeforeFlush(s.hist, n)
  {
    ReachableInv(s, capacity, overflow, acts);
    if n !in s.hist.losses {
      assert n in s.hist.writtenAt;
      assert IsWriteOf(s.hist, n);
      assert IsWriteThenFlush(s.hist, n, s.hist.writtenAt[n], s.hist.mark);
    }
  }

  // An emit whose section begins after the request costs the barrier nothing.
  lemma PendingBarrierShields(
      s: State, capacity: nat, overflow: OverflowPolicy, acts: seq<Action>, id: nat, n: nat)
    requires Reachable(s, capacity, overflow, acts) && s.lock.EmitHeld?
    requires id in s.barriers && IsRaised(s.barriers[id]) && s.barriers[id].raisedAt < s.lock.begun
    requires n <= s.barriers[id].target
    ensures n in FinishEmit(s).hist.losses <==> n in s.hist.losses
  {
    ReachableInv(s, capacity, overflow, acts);
    FinishKeepsGuard(s);
    LossIsTheSections(s, n);
  }

  lemma LossIsTheSections(s: State, n: nat)
    requires s.lock.EmitHeld?
    ensures FinishEmit(s).barriers == s.barriers && s.hist.losses.Keys <= FinishEmit(s).hist.losses.Keys
    ensures n in FinishEmit(s).hist.losses && n !in s.hist.losses ==> FinishEmit(s).hist.losses[n] == s.lock.begun
  {
  }

  // ---- barrier verdict ----

  // Every write up to `target` succeeded.
  ghost predicate NoFailure(h: History, target: nat) {
    forall i :: 0 <= i < |h.ops| && h.ops[i].Wrote? && h.ops[i].sequence <= target ==> h.ops[i].error.None?
  }

  // Some successful flush came after every write up to `target`.
  ghost predicate SuccessfulFlushAfter(h: History, target: nat) {
    exists j :: 0 <= j < |h.ops| && h.ops[j].FlushedOp? && h.ops[j].error.None? && WritesPrecede(h, target, j)
  }

  ghost predicate WritesPrecede(h: History, target: nat, j: nat) {
    forall i :: 0 <= i < |h.ops| && h.ops[i].Wrote? && h.ops[i].sequence <= target ==> i < j
  }

  // A barrier that ended in success covers only successful writes, and a
  // successful flush followed them unless the covering flush was the shutdown one.
  lemma SuccessMeansWritten(
      s: State, capacity: nat, overflow: OverflowPolicy, acts: seq<Action>, id: nat)
    requires Reachable(s, capacity, overflow, acts)
    requires id in s.barriers && s.barriers[id].pc == Done(None) && s.barriers[id].target > 0
    ensures s.barriers[id].target <= s.sh.flushed
    ensures NoFailure(s.hist, s.barriers[id].target)
    ensures SuccessfulFlushAfter(s.hist, s.barriers[id].target)
      || (s.hist.finalFlush && s.hist.regular < s.barriers[id].target)
  {
    ReachableInv(s, capacity, overflow, acts);
    VerdictMeans(s, s.barriers[id]);
  }

  lemma VerdictMeans(s: State, b: Barrier)
    requires LogComplete(s.hist) && FlushErrorsOk(s) && VerdictOk(s, b) && b.pc == Done(None) && b.target > 0
    ensures b.target <= s.sh.flushed && NoFailure(s.hist, b.target)
    ensures SuccessfulFlushAfter(s.hist, b.target) || (s.hist.finalFlush && s.hist.regular < b.target)
  {
    forall i | 0 <= i < |s.hist.ops| && s.hist.ops[i].Wrote? && s.hist.ops[i].sequence <= b.target
      ensures s.hist.ops[i].error.None?
    {
      assert WriteError(s.hist, s.hist.ops[i].sequence) == s.hist.ops[i].error;
    }
    if b.target <= s.hist.goodCover {
      assert WritesPrecede(s.hist, b.target, s.hist.good);
    }
  }

  // An error verdict is never made up. A covered evaluation reports the very error of
  // a write the barrier covers or of a flush at its target or beyond; only one that
  // fell short reports the stop error, of a sink that has stopped.
  lemma ErrorVerdictIsReal(
      s: State, capacity: nat, overflow: OverflowPolicy, acts: seq<Action>, id: nat, e: FlushError)
    requires Reachable(s, capacity, overflow, acts)
    requires id in s.barriers && s.barriers[id].pc == Done(Some(e))
    ensures s.barriers[id].look.Looked?
    ensures s.barriers[id].look.covered ==> s.barriers[id].target <= s.sh.flushed && Reported(s.hist.ops, s.barriers[id].target, e)
    ensures !s.barriers[id].look.covered ==> e == StoppedEarly() && e.kind == BrokenPipe && s.sh.stopped
  {
    ReachableInv(s, capacity, overflow, acts);
    ErrorMeans(s, s.barriers[id], e);
  }

  lemma ErrorMeans(s: State, b: Barrier, e: FlushError)
    requires VerdictOk(s, b) && b.pc == Done(Some(e))
    ensures b.look.Looked?
    ensures b.look.covered ==> b.target <= s.sh.flushed && Reported(s.hist.ops, b.target, e)
    ensures !b.look.covered ==> e == StoppedEarly() && s.sh.stopped
  {
  }

  // When a barrier reads the write slot, that slot names a covered record exactly
  // when some covered record failed, and then it names the least one.
  lemma FirstFailureRetained(
      s: State, capacity: nat, overflow: OverflowPolicy, acts: seq<Action>, target: nat)
    requires Reachable(s, capacity, overflow, acts) && target <= s.sh.flushed
    ensures WriteErrorFor(s.sh, target).None? <==> NoFailure(s.hist, target)
    ensures WriteErrorFor(s.sh, target).Some? ==>
      var w := s.sh.lastWriteError.value;
      && w.sequence in s.hist.writtenAt && WriteError(s.hist, w.sequence) == Some(w.error)
      && forall n :: n in s.hist.writtenAt && n < w.sequence ==> WriteError(s.hist, n).None?
  {
    ReachableInv(s, capacity, overflow, acts);
    WriteSlotExact(s, target);
    if WriteErrorFor(s.sh, target).None? {
      forall i | 0 <= i < |s.hist.ops| && s.hist.ops[i].Wrote? && s.hist.ops[i].sequence <= target
        ensures s.hist.ops[i].error.None?
      {
        assert WriteError(s.hist, s.hist.ops[i].sequence) == s.hist.ops[i].error;
      }
    } else {
      var n := s.sh.lastWriteError.value.sequence;
      assert IsWriteOf(s.hist, n);
      assert s.hist.ops[s.hist.writtenAt[n]].error.Some?;
    }
  }

  // ---- wake-ups ----

  // A parked waiter whose result is available has a notification ahead of it, and
  // an unparking worker step gets it going.
  lemma NoLostWaiter(s: State, capacity: nat, overflow: OverflowPolicy, acts: seq<Action>, id: nat)
    requires Reachable(s, capacity, overflow, acts) && id in s.barriers && s.barriers[id].pc == Parked
    ensures s.barriers[id].target <= s.sh.flushed || s.sh.stopped ==> Notifies(s.worker)
    ensures s.worker.Notifying? && s.progressHolder.None? ==>
      Step(s, WorkerStep(None)).Some? && Step(s, WorkerStep(None)).value.barriers[id].pc == WantLock
  {
    ReachableInv(s, capacity, overflow, acts);
    WaiterIsNotified(s, id);
  }

  lemma WaiterIsNotified(s: State, id: nat)
    requires id in s.barriers && s.barriers[id].pc == Parked && WakeOk(s, s.barriers[id])
    ensures s.barriers[id].target <= s.sh.flushed || s.sh.stopped ==> Notifies(s.worker)
    ensures s.worker.Notifying? && s.progressHolder.None? ==>
      Step(s, WorkerStep(None)).Some? && Step(s, WorkerStep(None)).value.barriers[id].pc == WantLock
  {
  }

  // A future that returned Pending and has not been woken since is registered, or
  // already taken by a notification that is about to wake it; when its result is
  // available such a notification is under way or still to come.
  lemma NoLostFuture(s: State, capacity: nat, overflow: OverflowPolicy, acts: seq<Action>, id: nat)
    requires Reachable(s, capacity, overflow, acts) && id in s.barriers
    requires s.barriers[id].pc.Pending? && !s.barriers[id].pc.woken
    ensures s.barriers[id].pc.waker in s.sh.wakers
      || (s.worker.Waking? && s.barriers[id].pc.waker in s.worker.left)
    ensures s.barriers[id].target <= s.sh.flushed || s.sh.stopped ==> Delivering(s.worker, s.barriers[id].pc.waker)
  {
    ReachableInv(s, capacity, overflow, acts);
    FutureIsWoken(s, s.barriers[id]);
  }

  lemma FutureIsWoken(s: State, b: Barrier)
    requires WakeOk(s, b) && b.pc.Pending? && !b.pc.woken
    ensures b.pc.waker in s.sh.wakers || (s.worker.Waking? && b.pc.waker in s.worker.left)
    ensures b.target <= s.sh.flushed || s.sh.stopped ==> Delivering(s.worker, b.pc.waker)
  {
  }

  // ---- conservation ----

  predicate IsAttempted(s: State, n: nat) {
    n in s.hist.writtenAt
  }

  predicate IsOverwritten(s: State, n: nat) {
    n in s.hist.losses
  }

  predicate IsInFlight(s: State, n: nat) {
    InFlight(s.worker).Some? && InFlight(s.worker).value.sequence == n
  }

  ghost predicate IsQueued(s: State, n: nat) {
    exists i :: 0 <= i < |s.sh.events| && s.sh.events[i].sequence == n
  }

  function Tally(b: bool): nat {
    if b then 1 else 0
  }

  // Every number ever issued is in exactly one place.
  lemma EveryNumberInOnePlace(
      s: State, capacity: nat, overflow: OverflowPolicy, acts: seq<Action>, n: nat)
    requires Reachable(s, capacity, overflow, acts) && 1 <= n <= s.sh.next
    ensures Tally(IsAttempted(s, n)) + Tally(IsOverwritten(s, n)) + Tally(IsInFlight(s, n)) + Tally(IsQueued(s, n)) == 1
  {
    ReachableInv(s, capacity, overflow, acts);
    OnePlace(s, n);
  }

  lemma OnePlace(s: State, n: nat)
    requires QueueOk(s) && LogSound(s) && PlaceOk(s) && 1 <= n <= s.sh.next
    ensures Tally(IsAttempted(s, n)) + Tally(IsOverwritten(s, n)) + Tally(IsInFlight(s, n)) + Tally(IsQueued(s, n)) == 1
  {
    if n > Cursor(s) {
      assert s.sh.events[n - Cursor(s) - 1].sequence == n;
    }
  }

  // The queue is the contiguous run of the newest numbers, in order, each with the
  // record accepted under it.
  lemma QueueIsNewestRun(s: State, capacity: nat, overflow: OverflowPolicy, acts: seq<Action>, i: nat)
    requires Reachable(s, capacity, overflow, acts) && i < |s.sh.events|
    ensures |s.sh.events| <= s.sh.next == |s.hist.accepted|
    ensures s.sh.events[i].sequence == s.sh.next - |s.sh.events| + 1 + i
    ensures s.sh.events[i].event == s.hist.accepted[s.sh.next - |s.sh.events| + i]
  {
    ReachableInv(s, capacity, overflow, acts);
    QueueEntry(s, i);
  }

  lemma QueueEntry(s: State, i: nat)
    requires QueueOk(s) && i < |s.sh.events|
    ensures |s.sh.events| <= s.sh.next == |s.hist.accepted|
    ensures s.sh.events[i].sequence == s.sh.next - |s.sh.events| + 1 + i
    ensures s.sh.events[i].event == s.hist.accepted[s.sh.next - |s.sh.events| + i]
  {
  }

  // Writes happen at most once per number and in number order.
  lemma WritesAreOrdered(
      s: State, capacity: nat, overflow: OverflowPolicy, acts: seq<Action>, i: nat, j: nat)
    requires Reachable(s, capacity, overflow, acts)
    requires i < j < |s.hist.ops| && s.hist.ops[i].Wrote? && s.hist.ops[j].Wrote?
    ensures s.hist.ops[i].sequence < s.hist.ops[j].sequence
    ensures 1 <= s.hist.ops[j].sequence <= |s.hist.accepted| == s.sh.next
    ensures s.hist.ops[j].event == s.hist.accepted[s.hist.ops[j].sequence - 1]
  {
    ReachableInv(s, capacity, overflow, acts);
    WriteOrder(s, i, j);
  }

  lemma WriteOrder(s: State, i: nat, j: nat)
    requires LogOk(s) && QueueOk(s) && i < j < |s.hist.ops| && s.hist.ops[i].Wrote? && s.hist.ops[j].Wrote?
    ensures s.hist.ops[i].sequence < s.hist.ops[j].sequence
    ensures 1 <= s.hist.ops[j].sequence <= |s.hist.accepted| == s.sh.next
    ensures s.hist.ops[j].event == s.hist.accepted[s.hist.ops[j].sequence - 1]
  {
    assert IsWriteOf(s.hist, s.hist.ops[j].sequence);
  }

  // The counters balance, and an idle sink is fully processed.
  lemma CountersBalance(s: State, capacity: nat, overflow: OverflowPolicy, acts: seq<Action>)
    requires Reachable(s, capacity, overflow, acts)
    ensures s.sh.stats.accepted == s.sh.next && s.sh.stats.overwritten == |s.hist.losses|
    ensures s.calls == s.sh.stats.accepted + s.sh.stats.dropped + |s.admitted| + (if s.lock.EmitHeld? then 1 else 0)
    ensures s.sh.flushed <= s.sh.processed <= s.sh.next && s.sh.requested <= s.sh.next
    ensures s.sh.events == [] && InFlight(s.worker).None? && HandedOver(s.worker).None? ==> s.sh.processed == s.sh.next
  {
    ReachableInv(s, capacity, overflow, acts);
    IdleIsProcessed(s);
  }

  lemma IdleIsProcessed(s: State)
    requires QueueOk(s) && LogOk(s) && PlaceOk(s)
    ensures s.sh.events == [] && InFlight(s.worker).None? && HandedOver(s.worker).None? ==> s.sh.processed == s.sh.next
  {
    if s.sh.events == [] && InFlight(s.worker).None? && HandedOver(s.worker).None? && s.sh.next > 0 {
      assert s.sh.next in s.hist.writtenAt;
    }
  }
}
