// The sink as an interleaving of its callers, its one worker and its barriers.
// A step is one lock-held section or one atomic access; a section is split where
// an access outside that lock can fall in its middle.

module AsyncProtocol {
  import opened Basics
  import opened Facade
  import opened AsyncShared

  // Who holds the queue lock across steps. An emitter holds it between loading
  // `requested_flush` and finishing; the worker between finding the queue empty
  // and deciding whether to park. `begun` is the time at which the section began.
  datatype QueueLock =
    | Free
    | EmitHeld(event: OwnedEvent, requestedSeen: nat, begun: nat)
    | WorkerHeld

  datatype After =
    | Continue(processed: nat)
    | Exit(stuck: Option<QueuedEvent>)

  // The worker's program counter. `at` is the position in the operation log of
  // the flush being accounted for; `stuck` is the record a panic left unwritten.
  datatype Worker =
    | Top
    | Deciding(requestedSeen: nat)
    | ParkedWorker
    | Writing(item: QueuedEvent)
    | Failing(item: QueuedEvent, error: FlushError)
    | Storing(item: QueuedEvent)
    | LoadingProcessed
    | LoadingRequested(processed: nat)
    | Flushing(processed: nat)
    | Settling(processed: nat, outcome: Option<FlushError>, at: nat)
    | Publishing(processed: nat, at: nat)
    | Notifying(resume: After)
    | Taking(resume: After)
    | Waking(left: seq<nat>, resume: After)
    | CheckingStop(processed: nat)
    | FinalFlushing(processed: nat)
    | FinalPublishing(processed: nat, at: nat)
    | Halting(stuck: Option<QueuedEvent>)
    | Finished(stuck: Option<QueuedEvent>)

  // Which call is evaluating a barrier's result. A poll evaluates it twice, the
  // second time after registering its waker; `woken` records that the waker was
  // woken since then.
  datatype Caller =
    | ByWait
    | FirstPoll(waker: nat)
    | SecondPoll(waker: nat, woken: bool)

  datatype BarrierPc =
    | Raising
    | Idle
    | WantLock
    | LoadFlushed(caller: Caller)
    | LoadStopped(caller: Caller)
    | LoadFlushError(caller: Caller)
    | LoadWriteError(caller: Caller, flushError: Option<FlushError>)
    | Parking
    | Parked
    | Registering(waker: nat)
    | Pending(waker: nat, woken: bool)
    | Done(verdict: Option<FlushError>)

  // What the latest evaluation found when it loaded `flushed`: whether the target was
  // covered, and whether the sink had stopped by then.
  datatype Look = NotLooked | Looked(covered: bool, stopSeen: bool)

  // `raisedAt` is the time of the barrier's `fetch_max`, once it has run. The clock
  // orders the emit sections' beginnings and the barriers' requests. Like `look`, it
  // records what happened and decides nothing.
  datatype Barrier = Barrier(target: nat, raisedAt: nat, pc: BarrierPc, look: Look)

  datatype WriterOp =
    | Wrote(sequence: nat, event: OwnedEvent, error: Option<FlushError>)
    | FlushedOp(upTo: nat, error: Option<FlushError>)

  // What has happened so far. `losses` maps an overwritten number to the time at
  // which the section that overwrote it began; `mark` and `good` are the positions
  // of the flush behind `flushed` and of the last successful ordinary flush.
  datatype History = History(
    accepted: seq<OwnedEvent>,
    ops: seq<WriterOp>,
    writtenAt: map<nat, nat>,
    losses: map<nat, nat>,
    mark: nat,
    good: nat,
    goodCover: nat,
    regular: nat,
    finalFlush: bool)

  datatype Handles = Open | Closing | Closed

  datatype State = State(
    sh: Shared,
    lock: QueueLock,
    worker: Worker,
    barriers: map<nat, Barrier>,
    progressHolder: Option<nat>,
    admitted: multiset<OwnedEvent>,
    calls: nat,
    handles: Handles,
    clock: nat,
    hist: History)

  function Init(capacity: nat, overflow: OverflowPolicy): State {
    State(AsyncShared.Fresh(capacity, overflow), Free, Top, map[], None, multiset{}, 0, Open, 0,
          History([], [], map[], map[], 0, 0, 0, 0, false))
  }

  datatype Action =
    | EmitRefused
    | EmitAdmit(event: OwnedEvent)
    | EmitContended(event: OwnedEvent)
    | EmitBegin(event: OwnedEvent)
    | EmitFinish
    | FlushTarget(id: nat)
    | FlushRaise(id: nat)
    | DropBegin
    | DropRequest
    | WorkerStep(outcome: Option<FlushError>)
    | WorkerPanic
    | WaitStart(id: nat)
    | PollStart(id: nat, waker: nat)
    | BarrierStep(id: nat)

  // ---- callers ----

  function FinishEmit(s: State): State
    requires s.lock.EmitHeld?
  {
    var admission := Admit(s.sh, s.lock.requestedSeen);
    var sh := Offer(s.sh, s.lock.event, s.lock.requestedSeen);
    var accepted := if admission == Refuse then s.hist.accepted else s.hist.accepted + [s.lock.event];
    var losses :=
      if admission == Evict && s.sh.events != []
      then s.hist.losses[s.sh.events[0].sequence := s.lock.begun]
      else s.hist.losses;
    s.(sh := sh, lock := Free, hist := s.hist.(accepted := accepted, losses := losses))
  }

  predicate CanDrop(s: State) {
    && s.handles == Open && s.admitted == multiset{} && s.lock == Free
    && forall id | id in s.barriers :: !s.barriers[id].pc.Raising?
  }

  // ---- the worker ----

  function WakeBarrier(b: Barrier, waker: nat): Barrier {
    match b.pc
    case Pending(w, _) => if w == waker then b.(pc := Pending(w, true)) else b
    case LoadFlushed(SecondPoll(w, _)) => if w == waker then b.(pc := LoadFlushed(SecondPoll(w, true))) else b
    case LoadStopped(SecondPoll(w, _)) => if w == waker then b.(pc := LoadStopped(SecondPoll(w, true))) else b
    case LoadFlushError(SecondPoll(w, _)) => if w == waker then b.(pc := LoadFlushError(SecondPoll(w, true))) else b
    case LoadWriteError(SecondPoll(w, _), e) =>
      if w == waker then b.(pc := LoadWriteError(SecondPoll(w, true), e)) else b
    case _ => b
  }

  function WakeAll(barriers: map<nat, Barrier>, waker: nat): map<nat, Barrier> {
    map id | id in barriers :: WakeBarrier(barriers[id], waker)
  }

  function Unpark(b: Barrier): Barrier {
    if b.pc.Parked? then b.(pc := WantLock) else b
  }

  function UnparkAll(barriers: map<nat, Barrier>): map<nat, Barrier> {
    map id | id in barriers :: Unpark(barriers[id])
  }

  function Pop(s: State): State
    requires s.sh.events != []
  {
    s.(sh := s.sh.(events := s.sh.events[1..]), worker := Writing(s.sh.events[0]))
  }

  // `write_event` returned.
  function HandOver(s: State, item: QueuedEvent, outcome: Option<FlushError>): State {
    s.(sh := if outcome.Some? then Failed(s.sh) else s.sh,
       worker := if outcome.Some? then Failing(item, outcome.value) else Storing(item),
       hist := s.hist.(ops := s.hist.ops + [Wrote(item.sequence, item.event, outcome)],
                       writtenAt := s.hist.writtenAt[item.sequence := |s.hist.ops|]))
  }

  function Store(s: State, item: QueuedEvent): State {
    s.(sh := s.sh.(processed := item.sequence), worker := LoadingProcessed)
  }

  // `flush` returned, for an iteration that had processed `upTo`.
  function LogFlush(s: State, upTo: nat, outcome: Option<FlushError>): State {
    s.(hist := s.hist.(ops := s.hist.ops + [FlushedOp(upTo, outcome)]))
  }

  function WorkerNext(s: State, outcome: Option<FlushError>): Option<State> {
    match s.worker
    case Top =>
      if s.lock != Free then None
      else if s.sh.events != [] then
        Some(Pop(s))
      else Some(s.(lock := WorkerHeld, worker := Deciding(s.sh.requested)))
    case Deciding(requestedSeen) =>
      Some(s.(lock := Free,
              worker := if requestedSeen > s.sh.flushed || s.sh.shutdown then LoadingProcessed else ParkedWorker))
    case ParkedWorker => Some(s.(worker := Top))
    case Writing(item) => Some(HandOver(s, item, outcome))
    case Failing(item, error) =>
      Some(s.(sh := NoteWriteError(s.sh, item.sequence, error), worker := Storing(item)))
    case Storing(item) => Some(Store(s, item))
    case LoadingProcessed => Some(s.(worker := LoadingRequested(s.sh.processed)))
    case LoadingRequested(processed) =>
      Some(s.(worker :=
        if s.sh.requested <= processed && s.sh.requested > s.sh.flushed then Flushing(processed)
        else CheckingStop(processed)))
    case Flushing(processed) =>
      Some(LogFlush(s, processed, outcome).(sh := if outcome.Some? then Failed(s.sh) else s.sh,
              worker := Settling(processed, outcome, |s.hist.ops|)))
    case Settling(processed, result, at) =>
      Some(s.(sh := SettleFlush(s.sh, processed, result), worker := Publishing(processed, at),
              hist := if result.None? then s.hist.(good := at, goodCover := processed) else s.hist))
    case Publishing(processed, at) =>
      Some(s.(sh := s.sh.(flushed := processed), worker := Notifying(Continue(processed)),
              hist := s.hist.(mark := at, regular := processed)))
    case Notifying(resume) =>
      if s.progressHolder.Some? then None
      else Some(s.(barriers := UnparkAll(s.barriers), worker := Taking(resume)))
    case Taking(resume) => Some(s.(sh := s.sh.(wakers := []), worker := Waking(s.sh.wakers, resume)))
    case Waking(left, resume) =>
      if left != [] then Some(s.(barriers := WakeAll(s.barriers, left[0]), worker := Waking(left[1..], resume)))
      else Some(s.(worker := match resume case Continue(p) => CheckingStop(p) case Exit(stuck) => Finished(stuck)))
    case CheckingStop(processed) =>
      if s.lock != Free then None
      else Some(s.(worker :=
        if !ShouldStop(s.sh) then Top
        else if s.sh.flushed < processed then FinalFlushing(processed)
        else Halting(None)))
    case FinalFlushing(processed) =>
      Some(LogFlush(s, processed, outcome).(worker := FinalPublishing(processed, |s.hist.ops|)))
    case FinalPublishing(processed, at) =>
      Some(s.(sh := s.sh.(flushed := processed), worker := Halting(None),
              hist := s.hist.(mark := at, finalFlush := true)))
    case Halting(stuck) => Some(s.(sh := s.sh.(stopped := true), worker := Notifying(Exit(stuck))))
    case Finished(_) => None
  }

  // Only the writer's own code may panic; the wrapper then stops the sink.
  function PanicNext(s: State): Option<State> {
    match s.worker
    case Writing(item) => Some(s.(sh := Failed(s.sh), worker := Halting(Some(item))))
    case Flushing(_) => Some(s.(sh := Failed(s.sh), worker := Halting(None)))
    case FinalFlushing(_) => Some(s.(sh := Failed(s.sh), worker := Halting(None)))
    case _ => None
  }

  // ---- barriers ----

  // A barrier evaluated under `wait` holds the progress lock until it is done or
  // parks.
  predicate HoldsProgress(pc: BarrierPc) {
    match pc
    case LoadFlushed(caller) => caller == ByWait
    case LoadStopped(caller) => caller == ByWait
    case LoadFlushError(caller) => caller == ByWait
    case LoadWriteError(caller, _) => caller == ByWait
    case Parking => true
    case _ => false
  }

  function Move(s: State, id: nat, pc: BarrierPc): State
    requires id in s.barriers
  {
    s.(barriers := s.barriers[id := s.barriers[id].(pc := pc)])
  }

  // An evaluation loads `flushed`.
  function Glance(s: State, id: nat, caller: Caller): State
    requires id in s.barriers
  {
    var b := s.barriers[id];
    var covered := s.sh.flushed >= b.target;
    s.(barriers := s.barriers[id := b.(pc := if covered then LoadFlushError(caller) else LoadStopped(caller),
                                       look := Looked(covered, s.sh.stopped))])
  }

  function Release(s: State, caller: Caller): State {
    if caller == ByWait then s.(progressHolder := None) else s
  }

  function BarrierNext(s: State, id: nat): Option<State>
    requires id in s.barriers
  {
    var b := s.barriers[id];
    match b.pc
    case WantLock =>
      if s.progressHolder.Some? then None
      else Some(Move(s, id, LoadFlushed(ByWait)).(progressHolder := Some(id)))
    case LoadFlushed(caller) =>
      Some(Glance(s, id, caller))
    case LoadStopped(caller) =>
      if s.sh.stopped then Some(Release(Move(s, id, Done(Some(StoppedEarly()))), caller))
      else Some(Move(s, id, match caller
        case ByWait => Parking
        case FirstPoll(w) => Registering(w)
        case SecondPoll(w, woken) => Pending(w, woken)))
    case LoadFlushError(caller) => Some(Move(s, id, LoadWriteError(caller, FlushErrorFor(s.sh, b.target))))
    case LoadWriteError(caller, flushError) =>
      var verdict := if flushError.Some? then flushError else WriteErrorFor(s.sh, b.target);
      Some(Release(Move(s, id, Done(verdict)), caller))
    case Parking => Some(Move(s, id, Parked).(progressHolder := None))
    case Parked => Some(Move(s, id, WantLock))
    case Registering(w) => Some(Move(s, id, LoadFlushed(SecondPoll(w, false))).(sh := Register(s.sh, w)))
    case _ => None
  }

  // ---- one step ----

  function Step(s: State, a: Action): Option<State> {
    match a
    case EmitRefused =>
      if s.handles == Open && (s.sh.capacity == 0 || s.sh.stopped)
      then Some(s.(sh := Dropped(s.sh), calls := s.calls + 1)) else None
    case EmitAdmit(event) =>
      if s.handles == Open && s.sh.capacity != 0 && !s.sh.stopped
      then Some(s.(sh := s.sh.(stats := s.sh.stats.(truncated := s.sh.stats.truncated + event.truncatedFields)),
                   admitted := s.admitted + multiset{event}, calls := s.calls + 1)) else None
    case EmitContended(event) =>
      if event in s.admitted
      then Some(s.(sh := Dropped(s.sh), admitted := s.admitted - multiset{event})) else None
    case EmitBegin(event) =>
      if event in s.admitted && s.lock == Free
      then Some(s.(admitted := s.admitted - multiset{event}, lock := EmitHeld(event, s.sh.requested, s.clock),
                   clock := s.clock + 1))
      else None
    case EmitFinish => if s.lock.EmitHeld? then Some(FinishEmit(s)) else None
    case FlushTarget(id) =>
      if s.handles == Open && s.lock == Free && id !in s.barriers
      then Some(s.(barriers := s.barriers[id := Barrier(s.sh.next, 0, Raising, NotLooked)])) else None
    case FlushRaise(id) =>
      if id in s.barriers && s.barriers[id].pc.Raising?
      then Some(s.(sh := Raise(s.sh, s.barriers[id].target),
                   barriers := s.barriers[id := s.barriers[id].(raisedAt := s.clock, pc := Idle)],
                   clock := s.clock + 1)) else None
    case DropBegin =>
      if CanDrop(s) then Some(s.(sh := s.sh.(shutdown := true), handles := Closing)) else None
    case DropRequest =>
      if s.handles == Closing then Some(s.(sh := s.sh.(requested := s.sh.next), handles := Closed)) else None
    case WorkerStep(outcome) => WorkerNext(s, outcome)
    case WorkerPanic => PanicNext(s)
    case WaitStart(id) =>
      if id in s.barriers && (s.barriers[id].pc.Idle? || s.barriers[id].pc.Pending?)
      then Some(Move(s, id, WantLock)) else None
    case PollStart(id, waker) =>
      if id in s.barriers && (s.barriers[id].pc.Idle? || s.barriers[id].pc.Pending?)
      then Some(Move(s, id, LoadFlushed(FirstPoll(waker)))) else None
    case BarrierStep(id) => if id in s.barriers then BarrierNext(s, id) else None
  }

  // The state after a sequence of actions, when every one of them is possible.
  function Replay(s: State, acts: seq<Action>): Option<State>
    decreases |acts|
  {
    if acts == [] then Some(s)
    else
      var before := Replay(s, acts[..|acts| - 1]);
      if before.None? then None else Step(before.value, acts[|acts| - 1])
  }

  ghost predicate Reachable(s: State, capacity: nat, overflow: OverflowPolicy, acts: seq<Action>) {
    Replay(Init(capacity, overflow), acts) == Some(s)
  }
}
