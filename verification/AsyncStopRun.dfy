// A run in which a sink flushes and stops between two loads of one poll.

module AsyncStopRun {
  import opened Basics
  import opened Facade
  import opened AsyncShared
  import opened AsyncProtocol
  import opened AsyncIteration

  // Any property of states that every step hands on, such as being reachable.
  ghost predicate StepClosed(reach: State -> bool) {
    forall s, a | reach(s) && Step(s, a).Some? :: reach(Step(s, a).value)
  }

  lemma Take(reach: State -> bool, s: State, a: Action) returns (t: State)
    requires StepClosed(reach) && reach(s) && Step(s, a).Some?
    ensures t == Step(s, a).value && reach(t)
  {
    t := Step(s, a).value;
  }

  lemma WorkersToo(reach: State -> bool)
    requires StepClosed(reach)
    ensures WorkerClosed(reach)
  {
    forall s, outcome | reach(s) && WorkerNext(s, outcome).Some? ensures reach(WorkerNext(s, outcome).value) {
      assert Step(s, WorkerStep(outcome)) == WorkerNext(s, outcome);
    }
  }

  // A record is queued in an otherwise fresh sink.
  lemma OneRecord(reach: State -> bool, overflow: OverflowPolicy, event: OwnedEvent) returns (s: State)
    requires StepClosed(reach) && reach(Init(1, overflow))
    ensures reach(s) && s.worker == Top && s.lock == Free && s.handles == Open && s.admitted == multiset{}
    ensures s.barriers == map[] && s.progressHolder.None? && s.hist.ops == []
    ensures s.sh == AsyncShared.Fresh(1, overflow).(events := [QueuedEvent(1, event)], next := 1, stats := s.sh.stats)
  {
    s := Init(1, overflow);
    s := Take(reach, s, EmitAdmit(event));
    s := Take(reach, s, EmitBegin(event));
    assert s.admitted == multiset{};
    s := Take(reach, s, EmitFinish);
  }

  // A barrier asks for it,
  lemma BarrierAsks(reach: State -> bool, r: State, id: nat) returns (s: State)
    requires StepClosed(reach) && reach(r) && r.lock == Free && r.handles == Open && r.barriers == map[]
    requires r.sh.next == 1 && r.sh.requested == 0
    ensures reach(s) && s == r.(sh := r.sh.(requested := 1), barriers := s.barriers, clock := s.clock)
    ensures s.barriers.Keys == {id} && s.barriers[id].target == 1 && s.barriers[id].pc == Idle
  {
    s := Take(reach, r, FlushTarget(id));
    s := Take(reach, s, FlushRaise(id));
  }

  // is polled,
  lemma PollStarts(reach: State -> bool, r: State, id: nat, waker: nat) returns (s: State)
    requires StepClosed(reach) && reach(r) && id in r.barriers && r.barriers[id].pc == Idle
    ensures reach(s) && s == Move(r, id, LoadFlushed(FirstPoll(waker)))
  {
    s := Take(reach, r, PollStart(id, waker));
  }

  // and finds its record unflushed.
  lemma PollFindsNothing(reach: State -> bool, r: State, id: nat, waker: nat) returns (s: State)
    requires StepClosed(reach) && reach(r) && id in r.barriers && r.barriers[id].pc == LoadFlushed(FirstPoll(waker))
    requires r.sh.flushed < r.barriers[id].target
    ensures reach(s) && s == Glance(r, id, FirstPoll(waker))
  {
    s := Take(reach, r, BarrierStep(id));
  }

  // Meanwhile the worker writes the record ...
  lemma WorkerWrites(reach: State -> bool, r: State, event: OwnedEvent) returns (s: State)
    requires WorkerClosed(reach) && reach(r) && r.worker == Top && r.lock == Free
    requires r.sh.events == [QueuedEvent(1, event)] && r.hist.ops == []
    ensures reach(s) && s == r.(sh := s.sh, worker := LoadingProcessed, hist := s.hist)
    ensures s.sh == r.sh.(events := [], processed := 1) && s.hist.ops == [Wrote(1, event, None)]
  {
    s := Turn(reach, r, None);
    s := Turn(reach, s, None);
    s := Turn(reach, s, None);
  }

  // ... finds the request covered,
  lemma WorkerChecks(reach: State -> bool, r: State) returns (s: State)
    requires WorkerClosed(reach) && reach(r) && r.worker == LoadingProcessed
    requires r.sh.processed == 1 && r.sh.requested == 1 && r.sh.flushed == 0
    ensures reach(s) && s == r.(worker := Flushing(1))
  {
    s := Turn(reach, r, None);
    s := Turn(reach, s, None);
  }

  // flushes, successfully,
  lemma WorkerFlushes(reach: State -> bool, r: State) returns (s: State)
    requires WorkerClosed(reach) && reach(r) && r.worker == Flushing(1)
    ensures reach(s) && s == r.(sh := s.sh, worker := s.worker, hist := s.hist)
    ensures s.worker.Publishing? && s.worker.processed == 1
    ensures s.sh == r.sh.(lastFlushError := None) && s.hist.ops == r.hist.ops + [FlushedOp(1, None)]
  {
    s := Turn(reach, r, None);
    s := Turn(reach, s, None);
  }

  // announces it,
  lemma WorkerPublishes(reach: State -> bool, r: State) returns (s: State)
    requires WorkerClosed(reach) && reach(r) && r.worker.Publishing? && r.worker.processed == 1 && r.progressHolder.None?
    requires forall i | i in r.barriers :: !r.barriers[i].pc.Parked?
    ensures reach(s)
    ensures s == r.(sh := r.sh.(flushed := 1), worker := Taking(Continue(1)), hist := s.hist) && s.hist.ops == r.hist.ops
  {
    s := Turn(reach, r, None);
    NobodyParked(r.barriers);
    s := Turn(reach, s, None);
  }

  lemma NobodyParked(barriers: map<nat, Barrier>)
    requires forall i | i in barriers :: !barriers[i].pc.Parked?
    ensures UnparkAll(barriers) == barriers
  {
  }

  // finds nobody to wake,
  lemma WorkerTells(reach: State -> bool, r: State) returns (s: State)
    requires WorkerClosed(reach) && reach(r) && r.worker == Taking(Continue(1)) && r.sh.wakers == []
    ensures reach(s) && s == r.(worker := CheckingStop(1))
  {
    s := Turn(reach, r, None);
    s := Turn(reach, s, None);
  }

  // The last handle is dropped,
  lemma HandlesDrop(reach: State -> bool, r: State) returns (s: State)
    requires StepClosed(reach) && reach(r) && r.lock == Free && r.handles == Open && r.admitted == multiset{}
    requires forall i | i in r.barriers :: !r.barriers[i].pc.Raising?
    ensures reach(s) && s == r.(sh := r.sh.(shutdown := true), handles := Closing)
  {
    s := Take(reach, r, DropBegin);
  }

  // and the worker stops.
  lemma WorkerStops(reach: State -> bool, r: State) returns (s: State)
    requires WorkerClosed(reach) && reach(r) && r.worker == CheckingStop(1) && r.lock == Free && r.sh.flushed == 1
    requires r.sh.shutdown && r.sh.events == []
    ensures reach(s) && s == r.(sh := r.sh.(stopped := true), worker := s.worker)
  {
    s := Turn(reach, r, None);
    s := Turn(reach, s, None);
  }

  // One record queued, one poll under way that found it unflushed.
  lemma PollUnderWay(reach: State -> bool, overflow: OverflowPolicy, event: OwnedEvent, id: nat, waker: nat)
    returns (s: State)
    requires StepClosed(reach) && reach(Init(1, overflow))
    ensures reach(s) && s.worker == Top && s.lock == Free && s.handles == Open && s.admitted == multiset{}
    ensures s.progressHolder.None? && s.hist.ops == []
    ensures s.sh == AsyncShared.Fresh(1, overflow).(events := [QueuedEvent(1, event)], next := 1, requested := 1, stats := s.sh.stats)
    ensures s.barriers.Keys == {id} && s.barriers[id].target == 1
    ensures s.barriers[id].pc == LoadStopped(FirstPoll(waker)) && s.barriers[id].look == Looked(false, false)
  {
    s := OneRecord(reach, overflow, event);
    s := BarrierAsks(reach, s, id);
    s := PollStarts(reach, s, id, waker);
    s := PollFindsNothing(reach, s, id, waker);
  }

  // From there the worker takes the record through to a flush.
  lemma WorkerGetsThere(reach: State -> bool, r: State, event: OwnedEvent) returns (s: State)
    requires WorkerClosed(reach) && reach(r) && r.worker == Top && r.lock == Free && r.hist.ops == []
    requires r.sh.events == [QueuedEvent(1, event)] && r.sh.requested == 1 && r.sh.flushed == 0
    ensures reach(s) && s == r.(sh := s.sh, worker := s.worker, hist := s.hist)
    ensures s.worker.Publishing? && s.worker.processed == 1 && s.hist.ops == [Wrote(1, event, None), FlushedOp(1, None)]
    ensures s.sh.events == [] && s.sh.wakers == r.sh.wakers
  {
    s := WorkerWrites(reach, r, event);
    s := WorkerChecks(reach, s);
    s := WorkerFlushes(reach, s);
  }

  // One record in, one poll under way, one flush done but not announced.
  lemma FlushedBehindThePoll(reach: State -> bool, overflow: OverflowPolicy, event: OwnedEvent, id: nat, waker: nat)
    returns (s: State)
    requires StepClosed(reach) && reach(Init(1, overflow))
    ensures reach(s) && s.worker.Publishing? && s.worker.processed == 1 && s.progressHolder.None?
    ensures s.lock == Free && s.handles == Open && s.admitted == multiset{} && s.sh.events == [] && s.sh.wakers == []
    ensures s.hist.ops == [Wrote(1, event, None), FlushedOp(1, None)]
    ensures s.barriers.Keys == {id} && s.barriers[id].target == 1
    ensures s.barriers[id].pc == LoadStopped(FirstPoll(waker)) && s.barriers[id].look == Looked(false, false)
  {
    s := PollUnderWay(reach, overflow, event, id, waker);
    WorkersToo(reach);
    s := WorkerGetsThere(reach, s, event);
  }

  // Everything but the barrier's last load.
  lemma StoppedBehindThePoll(reach: State -> bool, overflow: OverflowPolicy, event: OwnedEvent, id: nat, waker: nat)
    returns (s: State)
    requires StepClosed(reach) && reach(Init(1, overflow))
    ensures reach(s) && s.sh.flushed == 1 && s.sh.stopped
    ensures s.hist.ops == [Wrote(1, event, None), FlushedOp(1, None)]
    ensures id in s.barriers && s.barriers[id].target == 1
    ensures s.barriers[id].pc == LoadStopped(FirstPoll(waker)) && s.barriers[id].look == Looked(false, false)
  {
    s := FlushedBehindThePoll(reach, overflow, event, id, waker);
    WorkersToo(reach);
    s := WorkerPublishes(reach, s);
    s := WorkerTells(reach, s);
    s := HandlesDrop(reach, s);
    s := WorkerStops(reach, s);
  }
}
