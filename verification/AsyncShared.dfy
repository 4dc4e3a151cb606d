// The memory an asynchronous sink shares with its worker and its barriers. Every
// function below is one section that the source runs under a lock, or one atomic
// access; the class performs the same sections in place.

module AsyncShared {
  import opened Basics
  import opened Facade

  datatype OverflowPolicy = DropNewest | OverwriteOldest

  datatype ErrorKind = BrokenPipe | OtherKind(code: nat)

  datatype FlushError = FlushError(kind: ErrorKind, message: string)

  datatype Located = Located(sequence: nat, error: FlushError)

  datatype QueuedEvent = QueuedEvent(sequence: nat, event: OwnedEvent)

  datatype SinkStats = SinkStats(accepted: nat, dropped: nat, overwritten: nat, truncated: nat, writeErrors: nat)

  datatype Shared = Shared(
    capacity: nat,
    overflow: OverflowPolicy,
    events: seq<QueuedEvent>,
    shutdown: bool,
    next: nat,
    processed: nat,
    requested: nat,
    flushed: nat,
    stopped: bool,
    wakers: seq<nat>,
    lastFlushError: Option<Located>,
    lastWriteError: Option<Located>,
    stats: SinkStats)

  function Fresh(capacity: nat, overflow: OverflowPolicy): Shared {
    Shared(capacity, overflow, [], false, 0, 0, 0, 0, false, [], None, None, SinkStats(0, 0, 0, 0, 0))
  }

  function Dropped(sh: Shared): Shared {
    sh.(stats := sh.stats.(dropped := sh.stats.dropped + 1))
  }

  function Failed(sh: Shared): Shared {
    sh.(stats := sh.stats.(writeErrors := sh.stats.writeErrors + 1))
  }

  // What the second half of the emit section does with a full or non-full queue.
  datatype Admission = Append | Refuse | Evict

  function Admit(sh: Shared, requestedSeen: nat): Admission {
    if |sh.events| != sh.capacity then Append
    else if sh.overflow == DropNewest then Refuse
    else if requestedSeen > sh.flushed && sh.events != [] && sh.events[0].sequence <= requestedSeen then Refuse
    else Evict
  }

  function Offer(sh: Shared, event: OwnedEvent, requestedSeen: nat): Shared {
    match Admit(sh, requestedSeen)
    case Refuse => Dropped(sh)
    case Append =>
      sh.(events := sh.events + [QueuedEvent(sh.next + 1, event)], next := sh.next + 1,
          stats := sh.stats.(accepted := sh.stats.accepted + 1))
    case Evict =>
      sh.(events := (if sh.events == [] then [] else sh.events[1..]) + [QueuedEvent(sh.next + 1, event)],
          next := sh.next + 1,
          stats := sh.stats.(accepted := sh.stats.accepted + 1, overwritten := sh.stats.overwritten + 1))
  }

  // The front record is one that a requested flush has yet to cover.
  predicate FrontIsOwed(sh: Shared, requestedSeen: nat) {
    sh.events != [] && sh.events[0].sequence <= requestedSeen && sh.flushed < requestedSeen
  }

  function Raise(sh: Shared, target: nat): Shared {
    sh.(requested := Max(sh.requested, target))
  }

  function NoteWriteError(sh: Shared, sequence: nat, error: FlushError): Shared {
    if sh.lastWriteError.None? then sh.(lastWriteError := Some(Located(sequence, error))) else sh
  }

  function SettleFlush(sh: Shared, processed: nat, outcome: Option<FlushError>): Shared {
    sh.(lastFlushError := if outcome.None? then None else Some(Located(processed, outcome.value)))
  }

  function Register(sh: Shared, waker: nat): Shared {
    if waker in sh.wakers then sh else sh.(wakers := sh.wakers + [waker])
  }

  predicate ShouldStop(sh: Shared) {
    sh.shutdown && sh.events == []
  }

  function StoppedEarly(): FlushError {
    FlushError(BrokenPipe, "logwise sink worker stopped before the barrier")
  }

  // The two filtered error slots a barrier consults once its target is flushed.
  function FlushErrorFor(sh: Shared, target: nat): Option<FlushError> {
    if sh.lastFlushError.Some? && sh.lastFlushError.value.sequence >= target
    then Some(sh.lastFlushError.value.error) else None
  }

  function WriteErrorFor(sh: Shared, target: nat): Option<FlushError> {
    if sh.lastWriteError.Some? && sh.lastWriteError.value.sequence <= target
    then Some(sh.lastWriteError.value.error) else None
  }

  // What a barrier's result is, read all at once: nothing yet, or success or an error.
  function Answer(sh: Shared, target: nat): Option<Option<FlushError>> {
    if sh.flushed < target then (if sh.stopped then Some(Some(StoppedEarly())) else None)
    else Some(if FlushErrorFor(sh, target).Some? then FlushErrorFor(sh, target) else WriteErrorFor(sh, target))
  }

  // ---- one iteration of the worker with nothing running beside it ----

  // The front record is written, its failure noted, its number counted.
  function AfterWrite(sh: Shared, outcome: Option<FlushError>): Shared
    requires sh.events != []
  {
    var item := sh.events[0];
    var popped := sh.(events := sh.events[1..]);
    (if outcome.Some? then NoteWriteError(Failed(popped), item.sequence, outcome.value) else popped)
      .(processed := item.sequence)
  }

  predicate FlushDue(sh: Shared) {
    sh.requested <= sh.processed && sh.requested > sh.flushed
  }

  function AfterFlush(sh: Shared, outcome: Option<FlushError>): Shared {
    if FlushDue(sh)
    then SettleFlush(if outcome.Some? then Failed(sh) else sh, sh.processed, outcome).(flushed := sh.processed)
    else sh
  }

  function AfterStop(sh: Shared): Shared {
    if ShouldStop(sh) then sh.(flushed := Max(sh.flushed, sh.processed), stopped := true) else sh
  }

  // The whole iteration, for a writer that answers by sequence number.
  function AfterTop(sh: Shared, write: nat -> Option<FlushError>): Shared {
    if sh.events == [] then sh else AfterWrite(sh, write(sh.events[0].sequence))
  }

  function Iterated(sh: Shared, write: nat -> Option<FlushError>, flush: nat -> Option<FlushError>): Shared {
    AfterStop(AfterFlush(AfterTop(sh, write), flush(AfterTop(sh, write).processed)))
  }

  // Iterations until the sink has stopped.
  function Drained(sh: Shared, write: nat -> Option<FlushError>, flush: nat -> Option<FlushError>): Shared
    requires sh.shutdown && !sh.stopped
    decreases |sh.events|
  {
    var next := Iterated(sh, write, flush);
    if next.stopped then next else Drained(next, write, flush)
  }

  // The write slot after writing `items` in order.
  function FirstFailure(
      before: Option<Located>, items: seq<QueuedEvent>, outcome: nat -> Option<FlushError>): Option<Located>
  {
    if items == [] then before
    else
      var earlier := FirstFailure(before, items[..|items| - 1], outcome);
      var last := items[|items| - 1].sequence;
      if earlier.None? && outcome(last).Some? then Some(Located(last, outcome(last).value)) else earlier
  }

  lemma FirstFailureSnoc(
      before: Option<Located>, items: seq<QueuedEvent>, item: QueuedEvent, outcome: nat -> Option<FlushError>)
    ensures FirstFailure(before, items + [item], outcome)
      == FirstFailure(FirstFailure(before, items, outcome), [item], outcome)
  {
    assert (items + [item])[..|items|] == items && [item][..0] == [];
  }

  lemma {:induction false} FirstFailureCons(
      before: Option<Located>, item: QueuedEvent, items: seq<QueuedEvent>, outcome: nat -> Option<FlushError>)
    ensures FirstFailure(before, [item] + items, outcome)
      == FirstFailure(FirstFailure(before, [item], outcome), items, outcome)
    decreases |items|
  {
    if items == [] {
      assert [item] + items == [item];
    } else {
      var n := |items| - 1;
      FirstFailureCons(before, item, items[..n], outcome);
      assert [item] + items == ([item] + items[..n]) + [items[n]];
      FirstFailureSnoc(before, [item] + items[..n], items[n], outcome);
      FirstFailureSnoc(FirstFailure(before, [item], outcome), items[..n], items[n], outcome);
      assert items == items[..n] + [items[n]];
    }
  }

  // ---- what draining comes to ----

  predicate Ascending(events: seq<QueuedEvent>, processed: nat) {
    && (forall i | 0 <= i < |events| :: events[i].sequence > processed)
    && (forall i, j | 0 <= i < j < |events| :: events[i].sequence < events[j].sequence)
  }

  // A sink that is shut down, with its queue in number order beyond what is processed.
  predicate CanDrain(sh: Shared) {
    sh.shutdown && sh.flushed <= sh.processed && Ascending(sh.events, sh.processed)
  }

  // Everything queued was written, the first failure kept, all of it flushed, and the
  // sink stopped; nothing else changed but the count of errors and the flush slot.
  predicate DrainsTo(sh: Shared, done: Shared, write: nat -> Option<FlushError>) {
    && done.events == [] && done.stopped && done.flushed == done.processed
    && done.processed == (if sh.events == [] then sh.processed else sh.events[|sh.events| - 1].sequence)
    && done.lastWriteError == FirstFailure(sh.lastWriteError, sh.events, write)
    && done.stats.writeErrors >= sh.stats.writeErrors
    && done.(events := sh.events, stopped := sh.stopped, flushed := sh.flushed, processed := sh.processed,
             lastWriteError := sh.lastWriteError, lastFlushError := sh.lastFlushError,
             stats := done.stats.(writeErrors := sh.stats.writeErrors)) == sh
  }

  lemma MoveOne(written: seq<QueuedEvent>, events: seq<QueuedEvent>)
    ensures events != [] ==> written + events == written + [events[0]] + events[1..]
  {
  }

  lemma AscendingTail(events: seq<QueuedEvent>, processed: nat)
    requires Ascending(events, processed) && events != []
    ensures processed < events[0].sequence && Ascending(events[1..], events[0].sequence)
  {
  }

  // What one iteration does to a sink that may drain.
  lemma IteratedFields(sh: Shared, write: nat -> Option<FlushError>, flush: nat -> Option<FlushError>)
    requires sh.flushed <= sh.processed && sh.shutdown && !sh.stopped
    requires sh.events != [] ==> sh.processed < sh.events[0].sequence
    ensures var next := Iterated(sh, write, flush);
      && next.events == (if sh.events == [] then [] else sh.events[1..])
      && next.processed == (if sh.events == [] then sh.processed else sh.events[0].sequence)
      && next.shutdown && next.flushed <= next.processed
      && (next.stopped <==> next.events == [])
  {
  }

  lemma IteratedGoesOn(sh: Shared, write: nat -> Option<FlushError>, flush: nat -> Option<FlushError>)
    requires CanDrain(sh) && !sh.stopped
    ensures var next := Iterated(sh, write, flush);
      && CanDrain(next) && next.events == (if sh.events == [] then [] else sh.events[1..])
      && (next.stopped <==> next.events == [])
      && Drained(sh, write, flush) == if next.stopped then next else Drained(next, write, flush)
  {
    IteratedFields(sh, write, flush);
    if sh.events != [] {
      AscendingTail(sh.events, sh.processed);
    }
  }

  lemma WroteFirst(sh: Shared, write: nat -> Option<FlushError>)
    requires sh.events != []
    ensures AfterTop(sh, write).lastWriteError == FirstFailure(sh.lastWriteError, [sh.events[0]], write)
  {
    assert [sh.events[0]][..0] == [];
  }

  lemma IteratedStops(sh: Shared, write: nat -> Option<FlushError>, flush: nat -> Option<FlushError>)
    requires CanDrain(sh) && !sh.stopped
    requires |sh.events| <= 1
    ensures DrainsTo(sh, Iterated(sh, write, flush), write)
  {
    if sh.events != [] {
      WroteFirst(sh, write);
      assert sh.events == [sh.events[0]];
    }
  }

  lemma IteratedThenDrains(
      sh: Shared, next: Shared, done: Shared, write: nat -> Option<FlushError>, flush: nat -> Option<FlushError>)
    requires CanDrain(sh) && !sh.stopped
    requires |sh.events| > 1 && next == Iterated(sh, write, flush) && DrainsTo(next, done, write)
    ensures DrainsTo(sh, done, write)
  {
    IteratedAdvances(sh, write, flush);
    DrainsOn(sh, next, done, write);
  }

  // The front record is written and nothing but its traces changes.
  predicate Advances(sh: Shared, next: Shared, write: nat -> Option<FlushError>)
    requires sh.events != []
  {
    && next.events == sh.events[1..] && next.stats.writeErrors >= sh.stats.writeErrors
    && next.lastWriteError == FirstFailure(sh.lastWriteError, [sh.events[0]], write)
    && next.(events := sh.events, stopped := sh.stopped, flushed := sh.flushed, processed := sh.processed,
             lastWriteError := sh.lastWriteError, lastFlushError := sh.lastFlushError,
             stats := next.stats.(writeErrors := sh.stats.writeErrors)) == sh
  }

  lemma IteratedAdvances(sh: Shared, write: nat -> Option<FlushError>, flush: nat -> Option<FlushError>)
    requires CanDrain(sh) && sh.events != []
    ensures Advances(sh, Iterated(sh, write, flush), write)
  {
    WroteFirst(sh, write);
  }

  lemma DrainsOn(sh: Shared, next: Shared, done: Shared, write: nat -> Option<FlushError>)
    requires |sh.events| > 1 && Advances(sh, next, write) && DrainsTo(next, done, write)
    ensures DrainsTo(sh, done, write)
  {
    FirstFailureCons(sh.lastWriteError, sh.events[0], sh.events[1..], write);
    assert sh.events == [sh.events[0]] + sh.events[1..];
  }

  lemma {:induction false} DrainedMeans(
      sh: Shared, write: nat -> Option<FlushError>, flush: nat -> Option<FlushError>)
    requires CanDrain(sh) && !sh.stopped
    ensures DrainsTo(sh, Drained(sh, write, flush), write)
    decreases |sh.events|
  {
    var next := Iterated(sh, write, flush);
    IteratedGoesOn(sh, write, flush);
    if next.stopped {
      IteratedStops(sh, write, flush);
    } else {
      DrainedMeans(next, write, flush);
      IteratedThenDrains(sh, next, Drained(next, write, flush), write, flush);
    }
  }

  // The state a sink keeps behind its locks and atomics, updated in place.
  class AsyncSinkState {
    const capacity: nat
    const overflow: OverflowPolicy
    var events: seq<QueuedEvent>
    var shutdown: bool
    var next: nat
    var processed: nat
    var requested: nat
    var flushed: nat
    var stopped: bool
    var wakers: seq<nat>
    var lastFlushError: Option<Located>
    var lastWriteError: Option<Located>
    var stats: SinkStats

    function View(): Shared
      reads this
    {
      Shared(capacity, overflow, events, shutdown, next, processed, requested, flushed, stopped, wakers,
             lastFlushError, lastWriteError, stats)
    }

    constructor (capacity: nat, overflow: OverflowPolicy)
      ensures View() == Fresh(capacity, overflow)
    {
      this.capacity, this.overflow := capacity, overflow;
      events, shutdown := [], false;
      next, processed, requested, flushed := 0, 0, 0, 0;
      stopped, wakers := false, [];
      lastFlushError, lastWriteError := None, None;
      stats := SinkStats(0, 0, 0, 0, 0);
    }

    // `emit` after the queue lock is taken and `requested_flush` has been loaded.
    method FinishEmit(event: OwnedEvent, requestedSeen: nat)
      modifies `events, `next, `stats
      ensures View() == Offer(old(View()), event, requestedSeen)
      ensures old(|events|) != capacity ==>
        && next == old(next) + 1 && events == old(events) + [QueuedEvent(next, event)]
        && stats == old(stats).(accepted := old(stats).accepted + 1)
      ensures old(|events|) == capacity && (overflow == DropNewest || FrontIsOwed(old(View()), requestedSeen)) ==>
        && next == old(next) && events == old(events)
        && stats == old(stats).(dropped := old(stats).dropped + 1)
      ensures old(|events|) == capacity && overflow == OverwriteOldest && !FrontIsOwed(old(View()), requestedSeen) ==>
        && next == old(next) + 1
        && events == (if old(events) == [] then [] else old(events)[1..]) + [QueuedEvent(next, event)]
        && stats == old(stats).(accepted := old(stats).accepted + 1, overwritten := old(stats).overwritten + 1)
    {
      if |events| == capacity {
        if overflow == DropNewest {
          stats := stats.(dropped := stats.dropped + 1);
          return;
        }
        if requestedSeen > flushed && events != [] && events[0].sequence <= requestedSeen {
          stats := stats.(dropped := stats.dropped + 1);
          return;
        }
        if events != [] {
          events := events[1..];
        }
        stats := stats.(overwritten := stats.overwritten + 1);
      }
      next := next + 1;
      events := events + [QueuedEvent(next, event)];
      stats := stats.(accepted := stats.accepted + 1);
    }

    method RaiseRequest(target: nat)
      modifies this`requested
      ensures View() == Raise(old(View()), target)
    {
      if requested < target {
        requested := target;
      }
    }

    method PopFront() returns (item: Option<QueuedEvent>)
      modifies this`events
      ensures old(events) == [] ==> item.None? && View() == old(View())
      ensures old(events) != [] ==> item == Some(old(events)[0]) && View() == old(View()).(events := old(events)[1..])
    {
      if events == [] {
        return None;
      }
      item := Some(events[0]);
      events := events[1..];
    }

    method RecordWriteError(sequence: nat, error: FlushError)
      modifies this`lastWriteError
      ensures View() == NoteWriteError(old(View()), sequence, error)
    {
      if lastWriteError.None? {
        lastWriteError := Some(Located(sequence, error));
      }
    }

    method RecordFlush(upTo: nat, outcome: Option<FlushError>)
      modifies this`lastFlushError
      ensures View() == SettleFlush(old(View()), upTo, outcome)
    {
      match outcome {
        case None => lastFlushError := None;
        case Some(error) => lastFlushError := Some(Located(upTo, error));
      }
    }

    method RegisterWaker(waker: nat)
      modifies this`wakers
      ensures View() == Register(old(View()), waker)
      ensures wakers == if waker in old(wakers) then old(wakers) else old(wakers) + [waker]
    {
      var known := false;
      for i := 0 to |wakers|
        invariant known <==> waker in wakers[..i]
      {
        known := known || wakers[i] == waker;
      }
      if !known {
        wakers := wakers + [waker];
      }
    }

    // `flush`, with nothing accepted between reading the target and raising the request.
    method Flush() returns (target: nat)
      modifies this`requested
      ensures target == next && View() == Raise(old(View()), next)
    {
      target := next;
      RaiseRequest(target);
    }

    // `FlushBarrier::result` when nothing else runs in between its loads.
    method BarrierResult(target: nat) returns (verdict: Option<Option<FlushError>>)
      ensures verdict == Answer(View(), target)
      ensures flushed < target && !stopped ==> verdict == None
      ensures flushed < target && stopped ==>
        verdict == Some(Some(FlushError(BrokenPipe, "logwise sink worker stopped before the barrier")))
      ensures flushed >= target && lastFlushError.Some? && lastFlushError.value.sequence >= target ==>
        verdict == Some(Some(lastFlushError.value.error))
      ensures flushed >= target && !(lastFlushError.Some? && lastFlushError.value.sequence >= target) ==>
        var failed := lastWriteError.Some? && lastWriteError.value.sequence <= target;
        verdict == Some(if failed then Some(lastWriteError.value.error) else None)
    {
      if flushed < target {
        if stopped {
          return Some(Some(StoppedEarly()));
        }
        return None;
      }
      if lastFlushError.Some? && lastFlushError.value.sequence >= target {
        return Some(Some(lastFlushError.value.error));
      }
      if lastWriteError.Some? && lastWriteError.value.sequence <= target {
        return Some(Some(lastWriteError.value.error));
      }
      return Some(None);
    }

    // The first half of a worker iteration: pop a record, write it, note a failure,
    // count it as processed.
    method WriteNext(writeOutcome: nat -> Option<FlushError>) returns (item: Option<QueuedEvent>)
      modifies `events, `processed, `lastWriteError, `stats
      ensures View() == AfterTop(old(View()), writeOutcome)
      ensures item == if old(events) == [] then None else Some(old(events)[0])
    {
      item := PopFront();
      if item.Some? {
        var outcome := writeOutcome(item.value.sequence);
        if outcome.Some? {
          stats := stats.(writeErrors := stats.writeErrors + 1);
          RecordWriteError(item.value.sequence, outcome.value);
        }
        processed := item.value.sequence;
      }
    }

    // The second half: flush when the newest request has been processed.
    method FlushIfDue(flushOutcome: nat -> Option<FlushError>)
      requires flushed <= processed
      modifies `flushed, `lastFlushError, `stats
      ensures View() == AfterFlush(old(View()), flushOutcome(processed))
      ensures flushed == if requested <= processed && requested > old(flushed) then processed else old(flushed)
    {
      if requested <= processed && requested > flushed {
        var outcome := flushOutcome(processed);
        if outcome.Some? {
          stats := stats.(writeErrors := stats.writeErrors + 1);
        }
        RecordFlush(processed, outcome);
        flushed := processed;
      }
    }

    // The end of an iteration: an empty queue after shutdown is flushed once more,
    // whatever that returns, and the sink stops.
    method StopIfDone()
      requires flushed <= processed
      modifies `flushed, `stopped
      ensures View() == AfterStop(old(View()))
      ensures stopped == (old(stopped) || (shutdown && events == []))
      ensures flushed == if shutdown && events == [] then processed else old(flushed)
    {
      if shutdown && events == [] {
        if flushed < processed {
          flushed := processed;
        }
        stopped := true;
      }
    }

    // One turn of the worker's loop that does not park.
    method Iterate(writeOutcome: nat -> Option<FlushError>, flushOutcome: nat -> Option<FlushError>)
      returns (item: Option<QueuedEvent>)
      requires flushed <= processed && (events != [] ==> events[0].sequence > processed)
      modifies this
      ensures View() == Iterated(old(View()), writeOutcome, flushOutcome)
      ensures item == if old(events) == [] then None else Some(old(events)[0])
    {
      item := WriteNext(writeOutcome);
      FlushIfDue(flushOutcome);
      StopIfDone();
    }

    // The worker from shutdown to exit with nothing running beside it: everything
    // queued is written in order, the first failure is kept, and the sink stops
    // with all of it flushed.
    method DrainAndStop(writeOutcome: nat -> Option<FlushError>, flushOutcome: nat -> Option<FlushError>)
      returns (written: seq<QueuedEvent>)
      requires CanDrain(View()) && !stopped
      modifies this
      ensures written == old(events) && View() == Drained(old(View()), writeOutcome, flushOutcome)
      ensures DrainsTo(old(View()), View(), writeOutcome)
    {
      written := [];
      ghost var start, all := View(), events;
      while !stopped
        invariant CanDrain(View()) && all == written + events && (stopped ==> events == [])
        invariant Drained(start, writeOutcome, flushOutcome)
          == if stopped then View() else Drained(View(), writeOutcome, flushOutcome)
        decreases |events|, !stopped
      {
        IteratedGoesOn(View(), writeOutcome, flushOutcome);
        MoveOne(written, events);
        var item := Iterate(writeOutcome, flushOutcome);
        if item.Some? {
          written := written + [item.value];
        }
      }
      DrainedMeans(start, writeOutcome, flushOutcome);
    }
  }
}
