# Logwise, verified

Logwise is a logging library built from small concurrent protocols, two encoders and a
macro front end. This project models those cores in Dafny and proves what they promise.

- **AsyncSink** (`AsyncShared`, `AsyncProtocol`, `AsyncInvariants`, `AsyncCoverage`,
  `AsyncVerdicts`, `AsyncWakes`, `AsyncTheorems`, `AsyncAdmission`, `AsyncProgress`,
  `AsyncIteration`, `AsyncStopVerdict`, `AsyncStopRun`, `AsyncStopRace`): the
  bounded queue, its one worker and its flush barriers. `AsyncShared` holds each
  lock-held section twice, as a function and as a method of a class that updates its
  fields in place; `AsyncProtocol` interleaves those sections, split wherever an access
  outside the lock can fall in the middle; the rest proves one invariant over all runs and
  draws the promises from it.
- **FlightRecorder** (`FlightRecorder`, `FlightProtocol`, `FlightTheorems`, `FlightTotals`,
  `FlightViews`): the sharded ring in place, the interleaving of its writers and readers,
  what reads may miss, what their totals tell and what each view shows.
- **Interest and delivery** (`Interest`, `Runtime`, `RuntimeState`, `LazyEvaluation`,
  `Selection`, `CallsiteCache`, `Lineage`): the mask algebra, the runtime's lists and loops,
  the equality of lazy and eager evaluation, the racy two-word cache of a call site, and
  `Selection`, which says outright whom an event is for and who may see what of it.
- **Wire** (`WireFormat`, `WireLayout`, `WireEncoder`, `WireMeaning`, `WireBuffer`,
  `WireTransport`, `WireConcurrency`): the `logwise_v1` format with a host's parser and the
  document's byte table, the exact outcome of encoding and what a frame tells of its
  envelope, the in-place encoder, and the transport counters, call by call and under
  concurrent callers.
- **lformat** (`LformatScan`, `LformatArgs`, `LformatCode`, `LformatOutput`,
  `LformatErrors`): the scanner, the argument parser and the code generator, with a
  semantics for the generated program in which an expression's value may depend on
  everything evaluated before it; what that program writes, piece by piece, and what each
  error says of the input.
- **TracingBridge** and **Heartbeat**: the guard stack and the deadline loop.
- **Basics**, **Utf8**, **Utf8Scalars**, **Facade**: shared vocabulary; UTF-8 is section 3
  of RFC 3629.

Atomics are sequentially consistent and lock-held sections are atomic. Text is a sequence
of bytes; a formatter is the list of strings it writes; a float is its bit pattern; clocks
are natural numbers and the host's answer is a parameter.

Four promises are kept only under a condition, which is proved exactly.

- A call-site cache hit is right only while generations do not collide in the tag.
  `CacheRightIffShort`: all hits of runs with at most G generations are right if and only
  if G is below the tag's span; `CollisionFoolsTheCache` is the run that breaks it.
- A barrier may report that the worker stopped first although its records were written and
  flushed, because `flushed` and `stopped` are loaded one after the other
  (`StopCanHideASuccess`). `StopVerdictExact`: that happens if and only if the worker
  publishes the target and then stops between the two loads. A poll or wait that begins
  after the stop is therefore always right (`LateEvaluationIsRight`), and so is one during
  which the sink does not stop, which takes the drop of the last handle or a panic of the
  writer (`StopHasACause`).
- A frame's counters are said to let a reader reconstruct exactly what it did not receive.
  A call that no other overlaps is told exactly that (`AloneGapIsExact`). Overlap can spoil
  it (`OverlapHidesADrop`), because the number is taken before the counters are loaded and a
  drop is counted only as its call ends; `GapExactIff`: the count of drops is right if and
  only if as many earlier drops were still under way as later ones had been counted.
- An argument list is recovered token for token unless the tokens after its last comma
  print as nothing, as an invisible empty group does, and that comma ends an argument
  (`NothingIsDropped`, `EmptyGroupIsDropped`). The source says of the end of the list that
  nothing was consumed; its code asks only whether the consumed text is empty.

## Model

| member | source | states |
|---|---|---|
| AsyncTheorems.BarrierComplete | logwise_runtime/src/sinks.rs:417-426 | In every reachable state, once a raised barrier's target is flushed, each record up to it was handed to the writer unchanged before a completed flush, or was overwritten by an emit that began before the barrier's request |
| AsyncTheorems.PendingBarrierShields | logwise_runtime/src/sinks.rs:461-487 | An emit whose section begins after a barrier's request overwrites nothing the barrier covers |
| AsyncTheorems.SuccessMeansWritten | logwise_runtime/src/sinks.rs:566-593 | A barrier that ends in Ok covers no failed write, and a successful flush followed the covered writes unless only the shutdown flush covered them |
| AsyncTheorems.ErrorVerdictIsReal | logwise_runtime/src/sinks.rs:566-593 | An error verdict of a covered evaluation is the very error of a write numbered at most the target or of a flush at the target or beyond; only an evaluation that fell short reports the stop error, of a sink that has stopped |
| AsyncStopVerdict.StopVerdictExact | logwise_runtime/src/sinks.rs:566-576 | For every evaluation that falls short, and whatever runs between its two loads: it reports the stop exactly when the sink has stopped, and its target is flushed nevertheless exactly when the worker published it and then stopped between the loads |
| AsyncStopVerdict.LateEvaluationIsRight | logwise_runtime/src/sinks.rs:566-593 | In every reachable state, an evaluation that began after the stop reports the stop exactly when its target was never flushed, and otherwise what the error slots say |
| AsyncStopVerdict.StopHasACause | logwise_runtime/src/sinks.rs:395-404 | The sink stops only after its last handle was dropped or its writer panicked |
| AsyncStopVerdict.FlushedIsFinal | logwise_runtime/src/sinks.rs:669-681 | Once the sink has stopped the flushed sequence never moves again |
| AsyncTheorems.FirstFailureRetained | logwise_runtime/src/sinks.rs:639-646 | When a covered barrier reads the write slot it is empty for the target exactly when no covered write failed, and otherwise names the least failing sequence |
| AsyncStopRace.StopCanHideASuccess | logwise_runtime/src/sinks.rs:566-576 | The false alarm occurs: a run in which a barrier reports that the worker stopped first although its record was written and flushed without error |
| AsyncTheorems.NoLostWaiter | logwise_runtime/src/sinks.rs:595-605 | A waiter parked on progress whose result is available has a worker notification still ahead of it, and that notification unparks it |
| AsyncTheorems.NoLostFuture | logwise_runtime/src/sinks.rs:609-620 | A Pending future not woken since has its waker registered or already taken by a notification, and if its result is there that notification is still to be delivered |
| AsyncTheorems.EveryNumberInOnePlace | logwise_runtime/src/sinks.rs:445-495 | Every number ever issued is in exactly one of attempted, overwritten, in flight, queued |
| AsyncTheorems.QueueIsNewestRun | logwise_runtime/src/sinks.rs:488-494 | The queue is the contiguous run of the newest numbers, each with the record accepted under it |
| AsyncTheorems.WritesAreOrdered | logwise_runtime/src/sinks.rs:622-650 | Records reach the writer at most once, in number order, unchanged |
| AsyncTheorems.CountersBalance | logwise_runtime/src/sinks.rs:446-495 | Accepted, dropped and overwritten counts account for every call; an idle sink has processed every number issued |
| AsyncAdmission.FlushCovers | logwise_runtime/src/sinks.rs:417-426 | From the call of flush on, in every continuation of every run: the barrier covers every record accepted before the call; once it is raised and flushed that far, each of them went to the writer unchanged before a completed flush, or was overwritten by an emit section begun before the request |
| AsyncAdmission.DropNewestLosesNothing | logwise_runtime/src/sinks.rs:461-466 | Over every run a DropNewest sink overwrites nothing: no accepted record is lost |
| AsyncAdmission.FullDropNewestRefuses | logwise_runtime/src/sinks.rs:461-466 | A DropNewest sink refuses the offered record exactly when its queue is full, leaving queue and numbers as they are and counting one drop |
| AsyncAdmission.FullOverwriteOldestEvicts | logwise_runtime/src/sinks.rs:467-487 | An OverwriteOldest sink refuses exactly when its queue is full and the front record is at most the unflushed request seen; otherwise a full queue loses exactly its front, and the offered record follows under the next number |
| AsyncAdmission.RoomAccepts | logwise_runtime/src/sinks.rs:488-494 | A queue with room takes the record at its back under the next number, whatever the policy |
| AsyncAdmission.CountsAreExact | logwise_runtime/src/sinks.rs:452-456 | Over every run the truncation counter is the number of texts shortened on the way in, and the error counter the failed writes and flushes plus panics, the flush at shutdown excepted |
| AsyncAdmission.NoCapacityNoRecords | logwise_runtime/src/sinks.rs:448-451 | A sink without capacity accepts nothing over every run and counts every call as dropped |
| AsyncAdmission.CallIsAnswered | logwise_runtime/src/sinks.rs:446-451 | A call on an open handle is let through exactly when the sink has capacity and has not stopped, and is counted as dropped otherwise |
| AsyncAdmission.StoppedSinkAdmitsNothing | logwise_runtime/src/sinks.rs:448-451 | Once stopped a sink stays stopped and lets no further call through to the queue |
| AsyncAdmission.IdleWorkerParks | logwise_runtime/src/sinks.rs:626-637 | With the queue empty the worker sleeps exactly when no requested flush is outstanding and the sink is not shutting down |
| AsyncAdmission.DropAsksForEverything | logwise_runtime/src/sinks.rs:503-506 | Dropping the last handle requests a flush of everything accepted |
| AsyncTheorems.InvKept | logwise_runtime/src/sinks.rs:417-707 | Every step of callers, worker and barriers keeps the sink's invariant |
| AsyncTheorems.ReachableInv | logwise_runtime/src/sinks.rs:417-707 | The invariant holds after every run from a fresh sink |
| AsyncProgress.RequestGetsFlushed | logwise_runtime/src/sinks.rs:622-683 | With a running, non-panicking worker and no new request, completing one iteration more than there are queued or in-flight records up to the request (two if mid-iteration) flushes it, whatever emitters and barriers do meanwhile |
| AsyncShared.AsyncSinkState.FinishEmit | logwise_runtime/src/sinks.rs:461-494 | The queue section of emit in place: a queue with room appends; a full one refuses under DropNewest or while its front is owed to a requested flush, and otherwise loses its front to the new record; each with its one counter |
| AsyncShared.AsyncSinkState.Flush | logwise_runtime/src/sinks.rs:417-426 | A flush takes the newest accepted number as its target and raises the request to it, in place |
| AsyncShared.AsyncSinkState.WriteNext | logwise_runtime/src/sinks.rs:639-650 | One worker write in place: the front record is taken, a first failure is kept, the number is counted as processed |
| AsyncShared.AsyncSinkState.FlushIfDue | logwise_runtime/src/sinks.rs:652-667 | A flush happens exactly when the newest request is processed but not flushed; its outcome replaces the flush slot |
| AsyncShared.AsyncSinkState.BarrierResult | logwise_runtime/src/sinks.rs:566-592 | Nothing while the target is unflushed and the worker runs, the stop error once it has stopped; from a flushed target the error of a flush at or beyond it, else that of a covered write, else success |
| AsyncShared.AsyncSinkState.RegisterWaker | logwise_runtime/src/sinks.rs:613-617 | A waker is registered once |
| AsyncShared.AsyncSinkState.StopIfDone | logwise_runtime/src/sinks.rs:669-681 | The worker stops exactly when shut down with an empty queue, after covering what it processed |
| AsyncShared.AsyncSinkState.DrainAndStop | logwise_runtime/src/sinks.rs:622-683 | The worker loop from shutdown to exit writes everything queued in order, keeps the least failure and stops fully flushed, with the state of the specified iterations |
| AsyncIteration.IterationTurn | logwise_runtime/src/sinks.rs:622-683 | A protocol worker with nothing running beside it takes one turn of its loop to the state the in-place iteration leaves, up to the wakers it takes |
| AsyncIteration.WorkerDrains | logwise_runtime/src/sinks.rs:622-683 | Left alone after shutdown, the protocol worker reaches its end in the state `DrainAndStop` leaves |
| AsyncIteration.EvaluationAtOnce | logwise_runtime/src/sinks.rs:566-593 | The protocol's loads of one evaluation, taken in one go, answer what `BarrierResult` computes |
| AsyncIteration.FlushAtOnce | logwise_runtime/src/sinks.rs:417-426 | The two protocol steps of a flush, taken in one go, do what `Flush` does |
| Utf8.Clip | logwise_runtime/src/sinks.rs:103-114 | Truncation is the longest valid prefix within the limit, changed exactly when over the limit and at most three bytes short then |
| Utf8.FloorBoundary | logwise_runtime/src/sinks.rs:107-111 | Stepping back to a boundary finds exactly that prefix |
| Utf8.BoundaryExact | logwise_runtime/src/sinks.rs:107-111 | On valid text the byte test accepts an offset exactly when the bytes before it are valid text, and then the rest is too |
| Utf8.ClipTwice | logwise_runtime_wasm/src/wire.rs:342-366 | Clipping to the scratch buffer and again to the limit is clipping once to the smaller |
| Utf8Scalars.ValidExactly | logwise_runtime/src/sinks.rs:87-101 | Text is valid exactly when it is the encoding of Unicode scalar values, section 3 of RFC 3629 |
| Facade.OwnValue | logwise_runtime/src/sinks.rs:87-101 | Scalars are kept as they are and by their kind, texts as their longest prefix, shortened exactly when counted as cut |
| Facade.CopyFrom | logwise_runtime/src/sinks.rs:61-85 | The owned copy keeps metadata, context and omissions, every field in order under its name, privacy and detail, texts as longest prefixes, and counts each text that lost something once |
| FlightTheorems.CompleteReadNeverSkips | logwise_runtime/src/flight_recorder.rs:194-231 | For every interleaving, a read that found no busy shard contains a number of its window exactly when it was not overwritten before its shard was visited |
| FlightTheorems.ReadIsSound | logwise_runtime/src/flight_recorder.rs:194-231 | Whatever a read returns is ascending, inside its window, and the view's projection of the record accepted under that number |
| FlightTheorems.ChainedReadsAscend | logwise_runtime/src/flight_recorder.rs:194-231 | Complete reads chained through next_cursor form one strictly increasing stream |
| FlightTheorems.ChainedReadsNeverSkip | logwise_runtime/src/flight_recorder.rs:194-231 | A chain of reads, some of which may have found shards busy, misses a number between its first and last cursor only if it was overwritten before the complete read whose window it falls in visited its shard |
| FlightTheorems.ShardHoldsNewestSuffix | logwise_runtime/src/flight_recorder.rs:261-281 | Each shard always holds the newest suffix of what it accepted, in increasing order, as long as its capacity allows |
| FlightTheorems.CountersAtRest | logwise_runtime/src/flight_recorder.rs:249-283 | With no writer inside a shard, accepted == next_sequence == overwritten + retained |
| FlightTotals.LossesAreReported | logwise_runtime/src/flight_recorder.rs:194-231 | The overwritten total of a complete read is at least the number of records of its window that it missed |
| FlightTotals.TotalsAreReal | logwise_runtime/src/flight_recorder.rs:194-231 | The three totals of a finished read never exceed what has happened |
| FlightTotals.TruncatedAtRest | logwise_runtime/src/flight_recorder.rs:268-278 | With no writer inside a shard the truncation counter is the number of shortened texts of all records accepted |
| FlightTheorems.CapacityIsConserved | logwise_runtime/src/flight_recorder.rs:162-185 | In every reachable state the shard capacities are the constructor's split and add up to the capacity |
| FlightRecorder.SplitIsExact | logwise_runtime/src/flight_recorder.rs:162-185 | Shard capacities sum to the capacity, differ by at most one and are positive when it is |
| FlightTheorems.TailAtRest | logwise_runtime/src/flight_recorder.rs:234-240 | A complete read of a recorder at rest is exactly what is retained, and the tail its newest records overall; the omitted-field total still counts the records cut off |
| FlightTheorems.UndisturbedRead | logwise_runtime/src/flight_recorder.rs:194-231 | A read's begin and visit steps with nothing in between are a run of the protocol, finish, and return what the in-place read computes |
| FlightViews.ReadShowsAccepted | logwise_runtime/src/flight_recorder.rs:285-302 | Over every interleaving each record a read returns is what its view shows of the record accepted under that number: remotely the support-safe fields in order and no message, locally the fields that are not secret in order and the message |
| FlightViews.RemoteReadsAreSafe | logwise_runtime/src/flight_recorder.rs:290-297 | No read of any run returns a secret field, and no remote one a local field or a message |
| FlightViews.UndisturbedEmit | logwise_runtime/src/flight_recorder.rs:264-282 | An emit whose steps nobody comes between is a run of the protocol and leaves the shards and counters that the in-place emit leaves |
| FlightViews.DroppedEmit | logwise_runtime/src/flight_recorder.rs:262-270 | An emit that finds its shard contended or without capacity changes nothing but the count of dropped records |
| FlightViews.OmittedIsSum | logwise_runtime/src/flight_recorder.rs:218-223 | The omitted fields a read reports are the sum over the records it returns |
| FlightRecorder.ProjectionAccounts | logwise_runtime/src/flight_recorder.rs:285-302 | Projection never loses count of a field, and projecting twice is projecting to the narrower view |
| FlightRecorder.Project | logwise_runtime/src/flight_recorder.rs:285-302 | The in-place projection keeps, in order, the support-safe fields for the remote view and all but the secret ones for the local view, drops the message exactly for the remote one and counts what it leaves out |
| FlightRecorder.FlightRecorder.constructor | logwise_runtime/src/flight_recorder.rs:162-185 | The shards are built with the split capacities, empty |
| FlightRecorder.FlightRecorder.Emit | logwise_runtime/src/flight_recorder.rs:250-283 | One emit in place: a contended or zero-capacity shard drops, otherwise the oldest makes room and the stripped, owned record is appended under the next number |
| FlightRecorder.IngestionMeans | logwise_runtime/src/flight_recorder.rs:250-260 | What is retained of an event is all of it but its secret fields, which are counted as omitted, with texts cut to longest prefixes |
| FlightRecorder.FlightRecorder.ReadSince | logwise_runtime/src/flight_recorder.rs:194-231 | The in-place read returns, in number order, what the view shows of every record inside the window in the shards it could lock, and nothing else, with the next cursor and the totals |
| FlightRecorder.SumOmitted | logwise_runtime/src/flight_recorder.rs:213-216 | The omitted-field total of a read is the sum over its records |
| FlightRecorder.FlightRecorder.Tail | logwise_runtime/src/flight_recorder.rs:234-240 | The tail is the last part of a read from the start; its cursor and totals are those of the whole read |
| FlightRecorder.NoSecretRetained | logwise_runtime/src/flight_recorder.rs:250-262 | No secret field survives ingestion |
| FlightRecorder.StripSecrets | logwise_runtime/src/flight_recorder.rs:250-262 | Secret fields are removed and counted as omitted |
| CallsiteCache.HitWasComputed | src/dispatch.rs:259-281 | For any interleaving of loads, stores and configuration changes, a hit at generation g answers with a mask some thread computed for a generation congruent to g modulo the tag's span |
| CallsiteCache.SecondCallHits | src/dispatch.rs:259-281 | Once a call has missed and stored undisturbed, the next call of any thread takes the same mask out of the cache |
| CallsiteCache.CacheCoherent | src/dispatch.rs:259-281 | If the answered generation is current, no change awaits its bump and no computed generation collides with it, the mask is the dispatcher's answer for the current lists |
| CallsiteCache.CollisionFoolsTheCache | src/dispatch.rs:190-207 | For every word width and every two configurations a run one tag cycle long ends in a hit with the old mask |
| CallsiteCache.CacheRightIffShort | src/dispatch.rs:190-207 | For every call site: all settled hits in runs of at most G generations are right exactly when G is below the tag's span |
| CallsiteCache.ShortRunsAreDistinguished | src/dispatch.rs:198-206 | Fewer generations than the tag's span cannot collide |
| CallsiteCache.CachedPipelineIsEager | src/dispatch.rs:259-304 | Under a mask the cache answers with, every sink is handed exactly what evaluating all fields would have given it |
| CallsiteCache.ReachableInv | src/dispatch.rs:173-281 | The cache's invariant holds after every run |
| CallsiteCache.Callsite.InterestFrom | src/dispatch.rs:259-281 | A sequential call answers what the dispatcher would, without asking it while the generation stands, and keeps the cache coherent |
| Interest.TagExact | src/dispatch.rs:208-217 | A tagged word determines the mask and the generation modulo what the tag can hold, and nothing more |
| Interest.BitsRoundTrip | src/dispatch.rs:58-65 | A mask survives its bit form whatever sits above it in the word |
| LazyEvaluation.LazyIsEager | src/macros.rs:328-346 | Cached mask, contextual refinement, lazy evaluation and projection deliver to every sink the same fields, order, message and omissions as evaluating everything |
| LazyEvaluation.LazyTextIsEager | src/macros.rs:374-388 | Ad-hoc text is formatted exactly when some sink would receive it, and delivered unchanged |
| LazyEvaluation.StaleMaskIsSafe | src/macros.rs:160-302 | Under an arbitrary mask a sink's projection is its full projection minus the unwanted fields |
| LazyEvaluation.StaleDeliveriesAreSafe | logwise_runtime/src/facade_runtime.rs:539-569 | The whole pipeline under an arbitrary cached mask sends nothing, or gives every sink its eager delivery with exactly the unwanted fields taken out and counted as omitted; fields and omissions always add up to the schema |
| LazyEvaluation.StaleTextIsWhole | src/macros.rs:374-388 | Under an arbitrary cached mask ad-hoc text reaches every sink it is meant for or none, always with its whole message |
| LazyEvaluation.ProjectionIsAuthorized | logwise_runtime/src/facade_runtime.rs:539-569 | A projection contains only fields the sink is authorized for, with the values they had |
| LazyEvaluation.ProjectionIgnoresTheRest | logwise_runtime/src/facade_runtime.rs:511-569 | A mask that includes a sink's interest is as good for that sink as evaluating everything |
| Runtime.SinkInterestExact | logwise_runtime/src/facade_runtime.rs:511-537 | A sink's interest asks for exactly the fields its projection keeps |
| Selection.SelectedExactly | logwise_runtime/src/facade_runtime.rs:455-469 | A filter selects exactly what meets every criterion it sets: this target, a domain or event selector that is the name or a part of it ending before a dot or a double colon, the class, and a severity from the minimum upward in the order trace, debug, info, warn, error, critical |
| Selection.SeverityAlone | logwise_runtime/src/facade_runtime.rs:466-468 | A filter that sets only a minimum severity selects that severity and those above it; one that sets nothing selects everything |
| Selection.AboutExactly | logwise_runtime/src/facade_runtime.rs:471-485 | A filter with a context is for that context, or with descendants for every context below it along parents; one without is for all |
| Selection.MaskMeans | logwise_runtime/src/facade_runtime.rs:576-606 | A call site is asked for a field group exactly when the baseline or a context-free sink that selects it and may see the group asks, and defers to the context exactly when a context filter or activation selects it |
| Selection.RefinedMeans | logwise_runtime/src/facade_runtime.rs:608-621 | In a context at a time a group is wanted exactly when the baseline, a sink that selects site and context and may see it, or an unexpired activation that does asks for it |
| Selection.EvaluationIsLazy | src/macros.rs:158-181 | With the mask of the lists a call site computes a field exactly when somebody needs its group in this context at this time |
| Selection.FormattingIsLazy | src/macros.rs:374-388 | Ad-hoc text is formatted exactly when somebody needs the local core group |
| Selection.CachedMaskDecides | src/dispatch.rs:297-304 | A cached mask that does not defer to the context decides alone which fields are computed |
| Selection.DeliveriesReach | logwise_runtime/src/facade_runtime.rs:639-649 | Exactly the sinks an event is for are handed it, in registration order, ad-hoc text to no remote one, each with the evaluated fields it may see in order and unchanged, the rest counted, and the message only if it is local |
| Selection.SeesExactly | logwise_runtime/src/facade_runtime.rs:511-537 | A remote view may see support-safe fields, a retaining one also local ones, a trusted one all; only a full view sees deferred detail |
| Interest.BitsHavePlaces | src/dispatch.rs:34-52 | Each field group and the context request has its own bit, in the declared order |
| RuntimeState.RuntimeCore.SetInterest | logwise_runtime/src/facade_runtime.rs:215-219 | The baseline is replaced without its contextual bit and the generation advances |
| RuntimeState.RuntimeCore.AddSink | logwise_runtime/src/facade_runtime.rs:335-356 | A sink is registered last under a new id and the generation advances |
| RuntimeState.RuntimeCore.RemoveSink | logwise_runtime/src/facade_runtime.rs:281-297 | The first registration with the id is removed; the generation advances exactly then |
| RuntimeState.RuntimeCore.SelectorAvailability | logwise_runtime/src/facade_runtime.rs:358-380 | A selector is enabled when it selects a call site seen, not compiled when only its event is unheard of in a domain that is known, and unknown otherwise |
| RuntimeState.RuntimeCore.Activate | logwise_runtime/src/facade_runtime.rs:227-250 | An activation is recorded exactly when the selector is available or context-targeted and of this target |
| RuntimeState.RuntimeCore.PruneExpired | logwise_runtime/src/facade_runtime.rs:409-424 | Exactly the activations with time left stay, in order, and the generation advances only if some went |
| RuntimeState.RuntimeCore.InterestIn | logwise_runtime/src/facade_runtime.rs:576-606 | The interest loop answers what the baseline and the context-free sinks that select the site ask for, and defers when a context filter or activation selects it; the call site is learnt once |
| RuntimeState.RuntimeCore.ContextualInterest | logwise_runtime/src/facade_runtime.rs:608-621 | The refinement loop answers exactly what somebody needs of this site in this context at this time |
| RuntimeState.RuntimeCore.Emit | logwise_runtime/src/facade_runtime.rs:623-660 | Exactly the sinks the event is for are handed what they may see of it, in registration order; panics are counted and contained, a reentrant event is dropped and counted |
| Lineage.LineageIsStable | logwise_runtime/src/facade_runtime.rs:433-452 | In every reachable store the walk terminates, decides the reflexive-transitive parent relation, and later contexts or links never change its answer for an existing context |
| Lineage.DescendsIsConnected | logwise_runtime/src/facade_runtime.rs:433-452 | The walk answers yes exactly when a chain of parents leads from the candidate to the ancestor |
| Lineage.LinksAreIgnored | logwise_runtime/src/facade_runtime.rs:684-693 | A link changes no lineage answer |
| Lineage.AnswersStand | logwise_runtime/src/facade_runtime.rs:666-682 | Answers about an existing context survive any later contexts |
| Lineage.ChildDescends | logwise_runtime/src/facade_runtime.rs:666-682 | In every reachable store a context made under a parent descends from itself and from what that parent descends from and nothing else, whatever happens before it is stored and afterwards; one made under NONE descends from itself only |
| Lineage.LinksAreThoseAsked | logwise_runtime/src/facade_runtime.rs:684-693 | A context is stored without links, and from then on its links are the tokens it was asked to link to, each once, in order; token, name and parent never change |
| Lineage.CreateIsMintThenStore | logwise_runtime/src/facade_runtime.rs:666-682 | Creating a context is minting its id and then storing it, with its token, name and parent and no links |
| Lineage.ContextStore.IsDescendant | logwise_runtime/src/facade_runtime.rs:433-452 | The loop over parents computes the walk |
| Lineage.ContextStore.CreateContext | logwise_runtime/src/facade_runtime.rs:666-682 | A context is stored under a new id with that token, its name, its parent unless it is NONE, and no links; the others stay |
| Lineage.ContextStore.LinkContext | logwise_runtime/src/facade_runtime.rs:684-693 | An existing context gains the link at the end unless it has it; nothing else changes |
| WireTransport.RoundTrip | logwise_runtime_wasm/LOGWISE_V1.md:17-46 | Parsing a successful encoding followed by arbitrary bytes leaves those bytes and tells the envelope part by part: counters, worker, context, links, severity, class, kind, the four names, domain, location, omitted count, the fields that are not secret in order by name, privacy, detail and kind of value, strings and rendered texts as longest prefixes; length, flag and count of shortened texts are right |
| WireMeaning.EncodingTells | logwise_runtime_wasm/src/wire.rs:147-241 | On success the bytes are a frame that tells the envelope part by part, with the length and flag it must have |
| WireMeaning.ImageLoses | logwise_runtime_wasm/src/wire.rs:228-235 | The number of cuts counted is the number of texts that are shorter in the frame than in the envelope |
| WireLayout.FrameIsTabulated | logwise_runtime_wasm/LOGWISE_V1.md:19-41 | Every frame is the document's table byte by byte: magic, version, flags and length at their offsets, little-endian integers, links of 16 bytes, discriminants in declaration order, names, optional strings, location, counts, tagged entries and message in order |
| WireLayout.LeIsInt | logwise_runtime_wasm/LOGWISE_V1.md:17-18 | Byte i of an integer is its digit of weight 256 to the i |
| WireTransport.EncodesExactly | logwise_runtime_wasm/src/wire.rs:147-241 | Encoding succeeds exactly when links, sendable fields and schema strings are within what a 16-bit length can say, the size fits 32 bits and the frame fits the buffer |
| WireTransport.ErrorIsTheFirstRefusal | logwise_runtime_wasm/src/wire.rs:147-241 | With room to spare the error names the first limit that is broken, in the order links, schema, fields, field names; an envelope within the limits fails only for want of room |
| WireTransport.NoSecretOnTheWire | logwise_runtime_wasm/src/wire.rs:147-149 | Every field a host parses is the image of a non-secret field of the event |
| WireTransport.FlagMeansCut | logwise_runtime_wasm/src/wire.rs:231-232 | The truncation flag is raised exactly when the test identity, a retained value or the message is shorter than in the event |
| WireTransport.CountsAreExact | logwise_runtime_wasm/src/wire.rs:71-133 | Over every run of calls the sequence counts calls, dropped counts what did not arrive and truncated what was cut, modulo 2^64 |
| WireTransport.ReaderReconstructsTheGap | logwise_runtime_wasm/src/wire.rs:12-16 | An arriving frame parses to its own number, how many earlier calls did not arrive and how many values were cut before it, and tells its own event, links and identity |
| WireConcurrency.NumbersAreDistinct | logwise_runtime_wasm/src/wire.rs:96-96 | Over every interleaving of concurrent calls, numbers are handed out one by one: two calls share one only a full cycle of the counter apart |
| WireConcurrency.CountsAtRest | logwise_runtime_wasm/src/wire.rs:71-133 | Over every interleaving, when no call is under way the counters are the number of calls, of those that did not arrive and of values cut, modulo 2^64 |
| WireConcurrency.DroppedBeforeMeans | logwise_runtime_wasm/src/wire.rs:97-102 | What `dropped_before` counts: only dropped calls; it misses an earlier one only if that was still under way when this call took its number, and counts a later one only if that took its number before this call's loads were done |
| WireConcurrency.AloneGapIsExact | logwise_runtime_wasm/src/wire.rs:12-16 | A call that no other overlaps is told exactly how many earlier calls were dropped and how many values they cut |
| WireConcurrency.GapExactIff | logwise_runtime_wasm/src/wire.rs:12-16 | Once the earlier calls are over, a call was told exactly how many of them were dropped if and only if as many of those were still under way as later ones had been counted |
| WireConcurrency.OverlapHidesADrop | logwise_runtime_wasm/src/wire.rs:12-16 | A run of two overlapping calls in which the second is told that nothing was dropped although the first was |
| WireConcurrency.CallAtOnce | logwise_runtime_wasm/src/wire.rs:88-133 | The steps of one call with nothing in between are the in-place call |
| WireConcurrency.ReplayInv | logwise_runtime_wasm/src/wire.rs:71-133 | The invariant of counters and calls holds after every run |
| WireTransport.HostReadsTheStream | logwise_runtime_wasm/LOGWISE_V1.md:43-46 | A host that mirrors all arriving frames end to end reads every one of them back, in order |
| WireTransport.Transport.Encode | logwise_runtime_wasm/src/wire.rs:88-117 | Each call takes the next number; a failure counts as dropped, a success adds its shortened texts; the envelope is encoded as specified, in place |
| WireTransport.Transport.Emit | logwise_runtime_wasm/src/wire.rs:119-133 | Only an encoded frame the host accepts does not count as dropped |
| WireFormat.ReadsFrame | logwise_runtime_wasm/LOGWISE_V1.md:17-46 | The parser undoes the printer of any frame whose lengths fit, whatever follows |
| WireFormat.ReadsStream | logwise_runtime_wasm/LOGWISE_V1.md:43-46 | Frames printed end to end are read back, all of them, whatever follows |
| WireFormat.FramesAreUnambiguous | logwise_runtime_wasm/LOGWISE_V1.md:17-46 | No frame is a prefix of a different one |
| WireFormat.ReadsField | logwise_runtime_wasm/LOGWISE_V1.md:38-41 | A field entry is read back whatever its value |
| WireFormat.UnLeUndoesLe | logwise_runtime_wasm/LOGWISE_V1.md:17-17 | Little-endian integers are read back |
| WireEncoder.FrameOutcome | logwise_runtime_wasm/src/wire.rs:147-241 | Writing the frame is refused for the first reason that applies and otherwise leaves exactly the printed bytes |
| WireEncoder.KeptInOrder | logwise_runtime_wasm/src/wire.rs:199-217 | The retained fields are the event's non-secret ones, in order |
| WireEncoder.CutsExact | logwise_runtime_wasm/src/wire.rs:330-366 | A value is counted as cut exactly when its image differs from what it renders to |
| WireBuffer.EncodeEnvelope | logwise_runtime_wasm/src/wire.rs:147-241 | The in-place encoder with its back-patched flags and length produces exactly the specified outcome, and on success the bytes of a frame that tells the envelope |
| WireBuffer.Encoder.PutBytes | logwise_runtime_wasm/src/wire.rs:252-266 | Bytes are appended at the position if they fit, and refused otherwise |
| WireBuffer.Encoder.Schema | logwise_runtime_wasm/src/wire.rs:304-308 | A schema string is written with its length or refused |
| WireBuffer.Encoder.Dynamic | logwise_runtime_wasm/src/wire.rs:330-340 | A dynamic string is written clipped, and counted when clipped |
| WireBuffer.Encoder.Formatted | logwise_runtime_wasm/src/wire.rs:342-366 | Formatted text is written clipped to the smaller of scratch and limit, and counted when clipped |
| WireBuffer.Encoder.PutFields | logwise_runtime_wasm/src/wire.rs:211-222 | The retained fields are written in order, stopping at the first failure |
| WireBuffer.Encoder.PutLinks | logwise_runtime_wasm/src/wire.rs:171-177 | Links are written with their count or refused |
| WireBuffer.Encoder.PutEnvelope | logwise_runtime_wasm/src/wire.rs:160-229 | All sections of an envelope are written in order |
| WireBuffer.Encoder.Finish | logwise_runtime_wasm/src/wire.rs:231-240 | Flags and length are patched into the finished frame |
| WireBuffer.ScratchWriter.WriteStr | logwise_runtime_wasm/src/wire.rs:408-424 | One write keeps the scratch valid UTF-8, appends the longest prefix that fits and fails exactly when it had to cut |
| WireBuffer.ScratchWriter.Render | logwise_runtime_wasm/src/wire.rs:342-353 | A whole formatter leaves the longest valid prefix of its text in the scratch, flagged exactly when cut |
| LformatCode.LformatMeans | logwise_runtime/logwise_runtime_proc/src/parser.rs:272-411 | For every input, code is generated exactly when the literal, the arguments and all keys are well-formed, and running it writes what the format string means and evaluates what it calls for, in that order |
| LformatOutput.WritesAsIntended | logwise_runtime/logwise_runtime_proc/src/parser.rs:347-405 | For every accepted input the code writes, segment by segment, literals and the named arguments' values, then a space, the key, an equals sign and the value of each unnamed argument in call-site order; a value is what its expression gave at its one place in the evaluation order |
| LformatOutput.ErrorIsBlamed | logwise_runtime/logwise_runtime_proc/src/parser.rs:272-331 | The error is the first thing wrong: no quoted literal, the arguments, the format string, or the first placeholder without an argument; a success is named after the quoted text |
| LformatCode.ProgramMeans | logwise_runtime/logwise_runtime_proc/src/parser.rs:338-405 | The generated program never uses an unbound variable, writes literals and values in order, then the unused fields in call-site order |
| LformatCode.EvaluatedOnce | logwise_runtime/logwise_runtime_proc/src/parser.rs:333-388 | Each value expression is evaluated exactly once, interpolated ones in first-use order, then the rest in call-site order |
| LformatCode.FirstUsesAscend | logwise_runtime/logwise_runtime_proc/src/parser.rs:372-379 | First-use order is the order in which keys first appear in the format string |
| LformatCode.LformatImpl | logwise_runtime/logwise_runtime_proc/src/parser.rs:272-411 | The front end's loops compute the specified program or the specified error |
| LformatCode.CountUses | logwise_runtime/logwise_runtime_proc/src/parser.rs:333-345 | Occurrences are counted per argument |
| LformatCode.EmitInterpolated | logwise_runtime/logwise_runtime_proc/src/parser.rs:347-388 | The loop over segments emits literals, bindings and values, or reports the missing key |
| LformatCode.EmitTrailer | logwise_runtime/logwise_runtime_proc/src/parser.rs:390-405 | Arguments not interpolated are emitted in call-site order |
| LformatScan.ScanUndoesShow | logwise_runtime/logwise_runtime_proc/src/parser.rs:431-497 | Scanning undoes the escaping printer on every normalized segment list, whatever its literals begin or end with |
| LformatScan.ScanIsNormalized | logwise_runtime/logwise_runtime_proc/src/parser.rs:431-497 | Every accepted scan yields no empty or adjacent literals and only keys the printer can express |
| LformatErrors.ScanExactly | logwise_runtime/logwise_runtime_proc/src/parser.rs:431-497 | Every string either scans to its text and placeholders in order, escapes copied whole, doubled braces halved and a lone closing brace kept, or is cut short at a placeholder that is never closed |
| LformatScan.ScanFormatString | logwise_runtime/logwise_runtime_proc/src/parser.rs:431-497 | The scanner's loops compute the specified segments |
| LformatArgs.BuildUndoesDistinct | logwise_runtime/logwise_runtime_proc/src/parser.rs:165-212 | Parsing printed arguments with distinct keys and values from the grammar gives them back, with or without a trailing comma |
| LformatArgs.BuildUndoesShow | logwise_runtime/logwise_runtime_proc/src/parser.rs:165-212 | With repeated keys it names the first repeated one |
| LformatArgs.ParseUndoesShow | logwise_runtime/logwise_runtime_proc/src/parser.rs:100-140 | A well-formed value, turbofish, leading path and arrows included, is read back whole up to its comma |
| LformatArgs.NothingIsDropped | logwise_runtime/logwise_runtime_proc/src/parser.rs:11-15 | Every accepted input is its arguments (keys, equals signs, values, separating commas) followed by what the scanner left; that is empty unless the tokens after the last comma print as nothing and that comma ends an argument, and then it is exactly those tokens |
| LformatArgs.EmptyGroupIsDropped | logwise_runtime/logwise_runtime_proc/src/parser.rs:51-80 | An invisible empty group after the last comma is such a tail: it is accepted and lost |
| LformatArgs.AcceptedKeysAreDistinct | logwise_runtime/logwise_runtime_proc/src/parser.rs:201-209 | Accepted arguments have distinct keys |
| LformatErrors.RejectionIsNamed | logwise_runtime/logwise_runtime_proc/src/parser.rs:165-212 | Every rejected argument list lacks its comma, or is whole arguments with distinct keys followed by the malformed key or the repeated one the error names |
| LformatArgs.ScanArguments | logwise_runtime/logwise_runtime_proc/src/parser.rs:165-212 | The argument loop computes the specified list or error |
| LformatArgs.ScanKey | logwise_runtime/logwise_runtime_proc/src/parser.rs:51-80 | The key loop computes the specified key, end or malformed text |
| LformatArgs.ScanValue | logwise_runtime/logwise_runtime_proc/src/parser.rs:100-140 | The value loop with its bracket depth, colon run and previous token computes the specified value |
| TracingBridge.Bridge.OnEnter | logwise_compat_tracing/src/lib.rs:227-238 | Entering a known span pushes a guard that restores the current context; an unknown one changes nothing |
| TracingBridge.Bridge.OnExit | logwise_compat_tracing/src/lib.rs:240-274 | Exiting in any order unwinds, removes the last matching span and rebuilds the chain from what still resolves |
| TracingBridge.Bridge.LastPosition | logwise_compat_tracing/src/lib.rs:246-250 | The search from the top finds the last guard of a span, or none |
| TracingBridge.ExitDeletesOne | logwise_compat_tracing/src/lib.rs:240-274 | While lookups succeed an exit deletes the last matching span and nothing else |
| TracingBridge.ExitMeans | logwise_compat_tracing/src/lib.rs:240-274 | With any lookups an exit keeps what is below the topmost guard of the span and enters again, in order and under the contexts found now, exactly the known ones of those above; an unknown span changes nothing |
| TracingBridge.StackCountsOpen | logwise_compat_tracing/src/lib.rs:227-274 | After any sequence of enters and exits, with any lookups, the stack holds no span more often than it is open, and exactly as often while every exit finds the spans it has to enter again |
| TracingBridge.BaseIsRestored | logwise_compat_tracing/src/lib.rs:227-274 | When every enter is matched, in any order and whatever the lookups found, the stack is empty and the base context is current again |
| TracingBridge.Bridge.Pop | src/context.rs:103-109 | Dropping the top guard restores the context below it |
| Heartbeat.AtMostOneRecord | logwise_runtime/src/heartbeat.rs:258-321 | Over every run a heartbeat gets at most one record, and after every sweep each unwarned deadline lies ahead |
| Heartbeat.RecordedExactlyWhenLate | logwise_runtime/src/heartbeat.rs:280-297 | When completion is handled at time t the total is one exactly if t is at or past the deadline |
| Heartbeat.TotalIsFinal | logwise_runtime/src/heartbeat.rs:258-321 | Once completed, a heartbeat's total never changes |
| Heartbeat.RecordsAreTrue | logwise_runtime/src/heartbeat.rs:258-321 | Over every run each record names a heartbeat registered with some deadline, and a later completion or sweep that came exactly as long after it as the record says |
| Heartbeat.Watcher.NextDeadline | logwise_runtime/src/heartbeat.rs:261-265 | The wait is for the earliest deadline not yet warned about |
| Heartbeat.Watcher.Handle | logwise_runtime/src/heartbeat.rs:276-298 | A message registers or removes a heartbeat; a completion at or past an unwarned deadline records by how much |
| Heartbeat.Watcher.Sweep | logwise_runtime/src/heartbeat.rs:303-319 | A sweep records each late heartbeat once and marks it warned |

## Left out

- `AsyncSink::flush` waking a parked worker: the request is raised and the worker notified outside the queue lock (logwise_runtime/src/sinks.rs:419-424), so progress is stated for a running worker, and a parked one may always resume.
- Fairness for an old barrier: the worker flushes only when the newest request is processed, so later requests can postpone earlier ones.
- Wrap-around of the 64-bit sequence numbers of the sink and the recorder, and the panics on exhausted generations, sink ids and context ids.
- Weak-memory effects, lock poisoning, panics inside wakers, and `emergency_drain`, which is a flush followed by a wait.
- AsyncShared.AsyncSinkState.Flush: nothing is accepted between reading the target and raising the request; the protocol separates the two.
- AsyncShared.AsyncSinkState.BarrierResult: nothing runs between its loads; the interleaved loads are steps of the protocol.
- FlightRecorder.FlightRecorder.Emit: one call at a time; the moments between taking the lock, taking the number, counting shortened texts and storing the record are steps of the protocol.
- Lineage.LineageIsStable: parents are tokens this runtime minted; forged or foreign tokens may form cycles.
- Lineage.ContextStore.CreateContext: minting and storing with nothing in between; the two steps apart are in the state machine.
- RuntimeState.RuntimeCore.InterestIn: call sites are compared by their metadata rather than by address, and nothing runs between reading the baseline and the lists; the cache protocol separates the two.
- RuntimeState.RuntimeCore.Emit: sinks are not called; a set says which of them panic.
- A process without a dispatcher and the inactive guards it hands out.
- WireTransport.Transport.Encode: one call at a time; concurrent calls are the state machine of `WireConcurrency`.
- WireTransport.Transport.Emit: one call at a time, with the host's answer as a parameter.
- WireBuffer.Encoder.PutEnvelope: on failure nothing is said about the bytes already copied into the buffer, which the source does not return either.
- WireBuffer.ScratchWriter.Render: a formatter stops at the first error a write returns; one that carries on is not modelled.
- LformatCode.LformatMeans: value expressions do not mention the generated variable names, and error messages are reduced to their kind and the text they quote.
- Whether a compiler ever hands a macro an invisible empty group; the token stream may hold anything here.
- LformatScan.ScanUndoesShow: an escape `\u` without braces, which is not legal Rust, is not printed.
- Heartbeat.RecordedExactlyWhenLate: counts the watcher's records; the guard's own record at its drop site is separate.
- The tracing bridge's other threads: one thread's stack is modelled, and a span entered elsewhere is an exit that finds nothing.
- The older logger stack (`Logger`, `LogRecord`, in-memory and standard-error loggers): a separate path that shares no state with the sinks, caches and contexts modelled here.
- The per-level macro wrappers: each passes its arguments on to the front end modelled in `LformatCode` or to the pipeline modelled in `LazyEvaluation`.
- Spans and intervals, and console and panic capture: they produce events for the dispatcher, and nothing here depends on which events those are.
