// The transport's counters under concurrent callers. A call takes its number, loads what
// was dropped and what was cut before it, encodes, and accounts for its own outcome; each
// is one atomic access, and any number of calls interleave them.

module WireConcurrency {
  import opened Basics
  import opened WireEncoder
  import opened WireTransport

  // Where a call stands. `Refused` is a frame the host did not accept.
  datatype CallPc = TookNumber | LoadedDropped | Encoding | Refused | Done

  // One call, numbered by its place among all calls. `before` holds what its atomic
  // accesses returned so far: the number it found and the two counters it loaded.
  // `finishedFirst`, `knownDrops` and `knownCuts` remember the calls that were over when
  // it took its number and those its loads accounted for; `startedBy` how many calls had
  // started by its latest load.
  datatype Call = Call(
    attempt: Attempt,
    before: Counts,
    pc: CallPc,
    finishedFirst: set<nat>,
    knownDrops: set<nat>,
    knownCuts: set<nat>,
    startedBy: nat)

  // `drops` and `cuts` are the calls already accounted for in the counters.
  datatype State = State(counts: Counts, calls: seq<Call>, drops: set<nat>, cuts: set<nat>)

  const INITIAL := State(FRESH, [], {}, {})

  datatype Action = Start(attempt: Attempt) | Move(call: nat)

  function ResultOf(encode: EncodeFn, c: Call): Result<Encoded, EncodeError> {
    encode(c.before, c.attempt)
  }

  predicate IsDropped(encode: EncodeFn, c: Call) {
    !Arrives(ResultOf(encode, c), c.attempt.host)
  }

  function Finished(s: State): set<nat> {
    set i | 0 <= i < |s.calls| && s.calls[i].pc.Done?
  }

  function StartStep(s: State, attempt: Attempt): State {
    s.(counts := s.counts.(sequence := Plus(s.counts.sequence, 1)),
       calls := s.calls + [Call(attempt, Counts(s.counts.sequence, 0, 0), TookNumber, Finished(s), {}, {}, 0)])
  }

  function With(s: State, i: nat, c: Call): State
    requires i < |s.calls|
  {
    s.(calls := s.calls[i := c])
  }

  // The call's drop is counted, which ends it.
  function DropStep(s: State, i: nat): State
    requires i < |s.calls|
  {
    With(s, i, s.calls[i].(pc := Done))
      .(counts := s.counts.(dropped := Plus(s.counts.dropped, 1)), drops := s.drops + {i})
  }

  // A successful encoding counts what it cut; then the host, if there is one, answers.
  function EncodedStep(s: State, i: nat, encoded: Encoded): State
    requires i < |s.calls|
  {
    var c := s.calls[i];
    With(s, i, c.(pc := if c.attempt.host.Some? && c.attempt.host.value != Accepted then Refused else Done))
      .(counts := s.counts.(truncated := Plus(s.counts.truncated, encoded.truncatedValues)), cuts := s.cuts + {i})
  }

  function MoveStep(encode: EncodeFn, s: State, i: nat): Option<State>
    requires i < |s.calls|
  {
    var c := s.calls[i];
    match c.pc
    case TookNumber =>
      Some(With(s, i, c.(before := c.before.(dropped := s.counts.dropped), pc := LoadedDropped,
                         knownDrops := s.drops, startedBy := |s.calls|)))
    case LoadedDropped =>
      Some(With(s, i, c.(before := c.before.(truncated := s.counts.truncated), pc := Encoding,
                         knownCuts := s.cuts, startedBy := |s.calls|)))
    case Encoding =>
      (match ResultOf(encode, c)
       case Ok(encoded) => Some(EncodedStep(s, i, encoded))
       case Err(_) => Some(DropStep(s, i)))
    case Refused => Some(DropStep(s, i))
    case Done => None
  }

  function Step(encode: EncodeFn, s: State, a: Action): Option<State> {
    match a
    case Start(attempt) => Some(StartStep(s, attempt))
    case Move(i) => if i < |s.calls| then MoveStep(encode, s, i) else None
  }

  function Replay(encode: EncodeFn, acts: seq<Action>): Option<State> {
    if acts == [] then Some(INITIAL)
    else
      var before := Replay(encode, acts[..|acts| - 1]);
      if before.None? then None else Step(encode, before.value, acts[|acts| - 1])
  }

  // ---- what the counters stand for ----

  // The sum of `weight` over the members of `chosen` below `n`.
  function Total(weight: nat -> nat, chosen: set<nat>, n: nat): nat {
    if n == 0 then 0 else Total(weight, chosen, n - 1) + (if n - 1 in chosen then weight(n - 1) else 0)
  }

  lemma {:induction false} TotalAdds(weight: nat -> nat, chosen: set<nat>, n: nat, i: nat)
    requires i !in chosen
    ensures Total(weight, chosen + {i}, n) == Total(weight, chosen, n) + (if i < n then weight(i) else 0)
  {
    if n > 0 {
      TotalAdds(weight, chosen, n - 1, i);
    }
  }

  lemma {:induction false} TotalDepends(v: nat -> nat, w: nat -> nat, a: set<nat>, b: set<nat>, n: nat)
    requires forall i: nat | i < n :: (i in a <==> i in b) && (i in a ==> v(i) == w(i))
    ensures Total(v, a, n) == Total(w, b, n)
  {
    if n > 0 {
      TotalDepends(v, w, a, b, n - 1);
    }
  }

  // Calls that have not taken a number yet count for nothing.
  lemma {:induction false} TotalStops(weight: nat -> nat, chosen: set<nat>, n: nat, m: nat)
    requires n <= m && forall i | i in chosen :: i < n
    ensures Total(weight, chosen, m) == Total(weight, chosen, n)
    decreases m
  {
    if n < m {
      TotalStops(weight, chosen, n, m - 1);
    }
  }

  function One(): nat -> nat {
    (i: nat) => 1
  }

  function CutBy(encode: EncodeFn, s: State): nat -> nat {
    (i: nat) => if i < |s.calls| then TruncatedBy(ResultOf(encode, s.calls[i])) else 0
  }

  // How many calls in `chosen` there are, and how many values they cut.
  function DropTotal(s: State, chosen: set<nat>): nat {
    Total(One(), chosen, |s.calls|)
  }

  function CutTotal(encode: EncodeFn, s: State, chosen: set<nat>): nat {
    Total(CutBy(encode, s), chosen, |s.calls|)
  }

  predicate IsEncoded(c: Call) {
    c.pc.Refused? || c.pc.Done?
  }

  predicate HasLoadedDrops(c: Call) {
    !c.pc.TookNumber?
  }

  predicate HasLoadedCuts(c: Call) {
    HasLoadedDrops(c) && !c.pc.LoadedDropped?
  }

  // A call has its place as its number, and ends up among the drops exactly when it was
  // dropped, among the cuts exactly when it was encoded.
  ghost predicate CallOk(encode: EncodeFn, s: State, i: nat)
    requires i < |s.calls|
  {
    var c := s.calls[i];
    && c.before.sequence == Wrap(i)
    && (i in s.drops <==> c.pc.Done? && IsDropped(encode, c))
    && (i in s.cuts <==> IsEncoded(c) && ResultOf(encode, c).Ok?)
    && (c.pc.Refused? ==> IsDropped(encode, c))
  }

  // What its loads told it: the drops and cuts counted by then, among them those of every
  // call that was over before it took its number.
  ghost predicate LoadsOk(encode: EncodeFn, s: State, i: nat)
    requires i < |s.calls|
  {
    var c := s.calls[i];
    && (forall j | j in c.finishedFirst :: j < i && s.calls[j].pc.Done?)
    && (HasLoadedDrops(c) ==>
          && c.before.dropped == Wrap(DropTotal(s, c.knownDrops)) && c.knownDrops <= s.drops && i !in c.knownDrops
          && i < c.startedBy <= |s.calls|
          && (forall j | j in c.knownDrops :: j < c.startedBy)
          && (forall j | j in c.finishedFirst && j in s.drops :: j in c.knownDrops))
    && (HasLoadedCuts(c) ==>
          && c.before.truncated == Wrap(CutTotal(encode, s, c.knownCuts)) && c.knownCuts <= s.cuts && i !in c.knownCuts
          && (forall j | j in c.knownCuts :: j < c.startedBy)
          && (forall j | j in c.finishedFirst && j in s.cuts :: j in c.knownCuts))
  }

  ghost predicate Inv(encode: EncodeFn, s: State) {
    && (forall i | i in s.drops || i in s.cuts :: i < |s.calls|)
    && (forall i | 0 <= i < |s.calls| :: CallOk(encode, s, i))
    && (forall i | 0 <= i < |s.calls| :: LoadsOk(encode, s, i))
    && s.counts.sequence == Wrap(|s.calls|)
    && s.counts.dropped == Wrap(DropTotal(s, s.drops))
    && s.counts.truncated == Wrap(CutTotal(encode, s, s.cuts))
  }

  // A call keeps what it asked and, once it is encoding, what its accesses returned.
  ghost predicate CallGoesOn(c: Call, d: Call) {
    && d.attempt == c.attempt && d.before.sequence == c.before.sequence
    && (HasLoadedCuts(c) ==> HasLoadedCuts(d) && d.before == c.before)
    && (c.pc.Done? ==> d == c)
  }

  ghost predicate GoesOn(s: State, t: State) {
    && |s.calls| <= |t.calls| && s.drops <= t.drops && s.cuts <= t.cuts
    && forall i | 0 <= i < |s.calls| :: CallGoesOn(s.calls[i], t.calls[i])
  }

  // Totals over calls that were already accounted for never change.
  lemma TotalsStand(encode: EncodeFn, s: State, t: State, drops: set<nat>, cuts: set<nat>)
    requires GoesOn(s, t) && forall i | i in drops || i in cuts :: i < |s.calls|
    requires forall i | i in cuts :: HasLoadedCuts(s.calls[i])
    ensures DropTotal(t, drops) == DropTotal(s, drops) && CutTotal(encode, t, cuts) == CutTotal(encode, s, cuts)
  {
    TotalStops(One(), drops, |s.calls|, |t.calls|);
    TotalStops(CutBy(encode, t), cuts, |s.calls|, |t.calls|);
    forall i: nat | i < |s.calls| && i in cuts ensures CutBy(encode, t)(i) == CutBy(encode, s)(i) {
      assert CallGoesOn(s.calls[i], t.calls[i]);
    }
    TotalDepends(CutBy(encode, t), CutBy(encode, s), cuts, cuts, |s.calls|);
  }

  // A call that did not move keeps what its loads told it.
  lemma LoadsStand(encode: EncodeFn, s: State, t: State, i: nat)
    requires Inv(encode, s) && GoesOn(s, t) && i < |s.calls| && t.calls[i] == s.calls[i]
    requires forall j | j in t.drops && j !in s.drops :: j < |s.calls| && !s.calls[j].pc.Done?
    requires forall j | j in t.cuts && j !in s.cuts :: j < |s.calls| && !s.calls[j].pc.Done?
    ensures LoadsOk(encode, t, i)
  {
    var c := s.calls[i];
    assert LoadsOk(encode, s, i);
    forall j | j in c.finishedFirst ensures t.calls[j].pc.Done? && j < i {
      assert CallGoesOn(s.calls[j], t.calls[j]);
    }
    CutsAreEncoded(encode, s, s.cuts);
    TotalsStand(encode, s, t, if HasLoadedDrops(c) then c.knownDrops else {}, if HasLoadedCuts(c) then c.knownCuts else {});
  }

  lemma CutsAreEncoded(encode: EncodeFn, s: State, cuts: set<nat>)
    requires Inv(encode, s) && cuts <= s.cuts
    ensures forall i | i in cuts :: i < |s.calls| && HasLoadedCuts(s.calls[i])
  {
    forall i | i in cuts ensures i < |s.calls| && HasLoadedCuts(s.calls[i]) {
      assert CallOk(encode, s, i);
    }
  }

  lemma StartKeeps(encode: EncodeFn, s: State, attempt: Attempt)
    requires Inv(encode, s)
    ensures Inv(encode, StartStep(s, attempt))
  {
    var t := StartStep(s, attempt);
    var n := |s.calls|;
    WrapAdds(n, 1);
    CutsAreEncoded(encode, s, s.cuts);
    TotalsStand(encode, s, t, s.drops, s.cuts);
    forall i | 0 <= i < |t.calls| ensures CallOk(encode, t, i) && LoadsOk(encode, t, i) {
      if i < n {
        assert CallOk(encode, s, i);
        LoadsStand(encode, s, t, i);
      } else {
        assert t.calls[n].finishedFirst == Finished(s);
      }
    }
  }

  // The frame of a move: the other calls keep all they have.
  lemma OthersKeep(encode: EncodeFn, s: State, t: State, i: nat)
    requires Inv(encode, s) && GoesOn(s, t) && i < |s.calls| == |t.calls|
    requires !s.calls[i].pc.Done? && t.calls == s.calls[i := t.calls[i]]
    requires t.drops <= s.drops + {i} && t.cuts <= s.cuts + {i}
    ensures forall j | 0 <= j < |t.calls| && j != i :: CallOk(encode, t, j) && LoadsOk(encode, t, j)
  {
    forall j | 0 <= j < |t.calls| && j != i ensures CallOk(encode, t, j) && LoadsOk(encode, t, j) {
      assert CallOk(encode, s, j);
      LoadsStand(encode, s, t, j);
    }
  }

  lemma LoadKeeps(encode: EncodeFn, s: State, i: nat)
    requires Inv(encode, s) && i < |s.calls| && (s.calls[i].pc.TookNumber? || s.calls[i].pc.LoadedDropped?)
    ensures Inv(encode, MoveStep(encode, s, i).value)
  {
    var t := MoveStep(encode, s, i).value;
    assert CallOk(encode, s, i) && LoadsOk(encode, s, i);
    CutsAreEncoded(encode, s, s.cuts);
    OthersKeep(encode, s, t, i);
    TotalsStand(encode, s, t, s.drops, s.cuts);
    if s.calls[i].pc.LoadedDropped? {
      TotalsStand(encode, s, t, s.calls[i].knownDrops, {});
    }
    forall j | j in t.calls[i].finishedFirst ensures j < i && t.calls[j].pc.Done? {
      assert t.calls[j] == s.calls[j];
    }
  }

  lemma MoverKeepsLoads(encode: EncodeFn, s: State, t: State, i: nat)
    requires Inv(encode, s) && GoesOn(s, t) && i < |s.calls| == |t.calls|
    requires HasLoadedCuts(s.calls[i]) && t.calls[i] == s.calls[i].(pc := t.calls[i].pc) && HasLoadedCuts(t.calls[i])
    requires t.drops <= s.drops + {i} && t.cuts <= s.cuts + {i}
    ensures LoadsOk(encode, t, i)
  {
    var c := s.calls[i];
    assert LoadsOk(encode, s, i);
    forall j | j in c.finishedFirst ensures t.calls[j].pc.Done? && j < i {
      assert CallGoesOn(s.calls[j], t.calls[j]);
    }
    CutsAreEncoded(encode, s, s.cuts);
    TotalsStand(encode, s, t, c.knownDrops, c.knownCuts);
  }

  lemma DropKeeps(encode: EncodeFn, s: State, i: nat)
    requires Inv(encode, s) && i < |s.calls| && HasLoadedCuts(s.calls[i]) && !s.calls[i].pc.Done?
    requires IsDropped(encode, s.calls[i])
    requires i in s.cuts <==> ResultOf(encode, s.calls[i]).Ok?
    ensures Inv(encode, DropStep(s, i))
  {
    var t := DropStep(s, i);
    assert CallOk(encode, s, i);
    CutsAreEncoded(encode, s, s.cuts);
    OthersKeep(encode, s, t, i);
    MoverKeepsLoads(encode, s, t, i);
    TotalsStand(encode, s, t, s.drops, s.cuts);
    TotalAdds(One(), s.drops, |s.calls|, i);
    WrapAdds(DropTotal(s, s.drops), 1);
  }

  lemma EncodedKeeps(encode: EncodeFn, s: State, i: nat, encoded: Encoded)
    requires Inv(encode, s) && i < |s.calls| && s.calls[i].pc.Encoding? && ResultOf(encode, s.calls[i]) == Ok(encoded)
    ensures Inv(encode, EncodedStep(s, i, encoded))
  {
    var t := EncodedStep(s, i, encoded);
    assert CallOk(encode, s, i);
    CutsAreEncoded(encode, s, s.cuts);
    OthersKeep(encode, s, t, i);
    MoverKeepsLoads(encode, s, t, i);
    TotalsStand(encode, s, t, s.drops, s.cuts);
    TotalAdds(CutBy(encode, t), s.cuts, |s.calls|, i);
    assert CutBy(encode, t)(i) == encoded.truncatedValues;
    WrapAdds(CutTotal(encode, s, s.cuts), encoded.truncatedValues);
  }

  lemma StepKeeps(encode: EncodeFn, s: State, a: Action, t: State)
    requires Inv(encode, s) && Step(encode, s, a) == Some(t)
    ensures Inv(encode, t)
  {
    match a
    case Start(attempt) => StartKeeps(encode, s, attempt);
    case Move(i) =>
      var c := s.calls[i];
      assert CallOk(encode, s, i);
      match c.pc {
        case TookNumber => LoadKeeps(encode, s, i);
        case LoadedDropped => LoadKeeps(encode, s, i);
        case Encoding =>
          if ResultOf(encode, c).Ok? {
            EncodedKeeps(encode, s, i, ResultOf(encode, c).value);
          } else {
            DropKeeps(encode, s, i);
          }
        case Refused => DropKeeps(encode, s, i);
        case Done =>
      }
  }

  lemma {:induction false} ReplayInv(encode: EncodeFn, acts: seq<Action>, s: State)
    requires Replay(encode, acts) == Some(s)
    ensures Inv(encode, s)
    decreases |acts|
  {
    if acts != [] {
      var before := Replay(encode, acts[..|acts| - 1]).value;
      ReplayInv(encode, acts[..|acts| - 1], before);
      StepKeeps(encode, before, acts[|acts| - 1], s);
    }
  }

  // ---- what concurrent callers may rely on ----

  // The number a call stamps on its envelope.
  function NumberOf(c: Call): nat {
    Plus(c.before.sequence, 1)
  }

  // Calls are numbered one by one in the order in which they took their numbers, so two
  // share one only a full cycle of the counter apart.
  lemma NumbersAreDistinct(encode: EncodeFn, acts: seq<Action>, s: State, i: nat, j: nat)
    requires Replay(encode, acts) == Some(s) && i < |s.calls| && j < |s.calls|
    ensures NumberOf(s.calls[i]) == Wrap(i + 1)
    ensures NumberOf(s.calls[i]) == NumberOf(s.calls[j]) <==> i % TWO_TO_64 == j % TWO_TO_64
  {
    ReplayInv(encode, acts, s);
    assert CallOk(encode, s, i) && CallOk(encode, s, j);
    WrapAdds(i, 1);
    WrapAdds(j, 1);
  }

  predicate AtRest(s: State) {
    forall i | 0 <= i < |s.calls| :: s.calls[i].pc.Done?
  }

  function DroppedCalls(encode: EncodeFn, s: State): set<nat> {
    set i | 0 <= i < |s.calls| && IsDropped(encode, s.calls[i])
  }

  // When no call is under way the counters are exact, whatever the interleaving was.
  lemma CountsAtRest(encode: EncodeFn, acts: seq<Action>, s: State)
    requires Replay(encode, acts) == Some(s) && AtRest(s)
    ensures s.counts.sequence == Wrap(|s.calls|)
    ensures s.counts.dropped == Wrap(|DroppedCalls(encode, s)|)
    ensures s.counts.truncated == Wrap(CutTotal(encode, s, Finished(s)))
  {
    ReplayInv(encode, acts, s);
    forall i | 0 <= i < |s.calls| ensures CallOk(encode, s, i) && s.calls[i].pc.Done? {}
    assert s.drops == DroppedCalls(encode, s);
    TotalIsSize(s.drops, |s.calls|);
    UncutCountNothing(encode, s);
  }

  lemma {:induction false} TotalIsSize(chosen: set<nat>, n: nat)
    requires forall i | i in chosen :: i < n
    ensures Total(One(), chosen, n) == |chosen|
  {
    if n == 0 {
      assert chosen == {};
    } else {
      var rest := chosen - {n - 1};
      TotalIsSize(rest, n - 1);
      TotalDepends(One(), One(), chosen, rest, n - 1);
    }
  }

  lemma UncutCountNothing(encode: EncodeFn, s: State)
    requires Inv(encode, s) && AtRest(s)
    ensures CutTotal(encode, s, s.cuts) == CutTotal(encode, s, Finished(s))
  {
    forall i: nat | i < |s.calls| && i !in s.cuts ensures CutBy(encode, s)(i) == 0 {
      assert CallOk(encode, s, i);
    }
    ZerosDoNotCount(CutBy(encode, s), s.cuts, Finished(s), |s.calls|);
  }

  lemma {:induction false} ZerosDoNotCount(weight: nat -> nat, some: set<nat>, all: set<nat>, n: nat)
    requires forall i: nat | i < n :: i in all && (i !in some ==> weight(i) == 0)
    ensures Total(weight, some, n) == Total(weight, all, n)
  {
    if n > 0 {
      ZerosDoNotCount(weight, some, all, n - 1);
    }
  }

  // What `dropped_before` tells, call by call: it counts only calls that were dropped. It
  // misses an earlier dropped call only if that one was still under way when this one took
  // its number, and counts a later one only if that took its number before this one's loads
  // were done.
  lemma DroppedBeforeMeans(encode: EncodeFn, acts: seq<Action>, s: State, i: nat)
    requires Replay(encode, acts) == Some(s) && i < |s.calls| && HasLoadedDrops(s.calls[i])
    ensures s.calls[i].before.dropped == Wrap(|s.calls[i].knownDrops|)
    ensures forall j | j in s.calls[i].knownDrops :: j < |s.calls| && IsDropped(encode, s.calls[j]) && j != i
    ensures forall j | 0 <= j < i && s.calls[j].pc.Done? && IsDropped(encode, s.calls[j]) && j !in s.calls[i].knownDrops ::
      j !in s.calls[i].finishedFirst
    ensures forall j | j in s.calls[i].knownDrops && j > i :: j < s.calls[i].startedBy
  {
    ReplayInv(encode, acts, s);
    assert LoadsOk(encode, s, i);
    forall j | j in s.drops || (0 <= j < |s.calls|) ensures j < |s.calls| && CallOk(encode, s, j) {}
    TotalIsSize(s.calls[i].knownDrops, |s.calls|);
  }

  // No other call overlaps: all earlier ones were over, and none started before the loads
  // were done.
  predicate RanAlone(s: State, i: nat)
    requires i < |s.calls|
  {
    (forall j | 0 <= j < i :: j in s.calls[i].finishedFirst) && s.calls[i].startedBy == i + 1
  }

  // The earlier calls that were dropped.
  function EarlierDrops(encode: EncodeFn, s: State, i: nat): set<nat>
    requires i < |s.calls|
  {
    set j | 0 <= j < i && IsDropped(encode, s.calls[j])
  }

  lemma AloneKnows(encode: EncodeFn, s: State, i: nat)
    requires Inv(encode, s) && i < |s.calls| && HasLoadedCuts(s.calls[i]) && RanAlone(s, i)
    ensures s.calls[i].knownDrops == EarlierDrops(encode, s, i)
    ensures forall j: nat | j < i :: j in s.calls[i].knownCuts <==> ResultOf(encode, s.calls[j]).Ok?
    ensures forall j | j in s.calls[i].finishedFirst || j in s.calls[i].knownCuts :: j < i
  {
    assert LoadsOk(encode, s, i);
    var c := s.calls[i];
    forall j: nat | j < i
      ensures j in c.knownDrops <==> IsDropped(encode, s.calls[j])
      ensures j in c.knownCuts <==> ResultOf(encode, s.calls[j]).Ok?
    {
      assert j in c.finishedFirst && CallOk(encode, s, j);
    }
    assert forall j | j in c.knownDrops :: j < i;
    assert forall j | j in EarlierDrops(encode, s, i) :: j < i && j in c.knownDrops;
    assert forall j | j in c.knownDrops :: j in EarlierDrops(encode, s, i);
  }

  // A call that no other overlaps is told exactly how many earlier ones were dropped and
  // how many values earlier ones cut.
  lemma AloneGapIsExact(encode: EncodeFn, acts: seq<Action>, s: State, i: nat)
    requires Replay(encode, acts) == Some(s) && i < |s.calls| && HasLoadedCuts(s.calls[i]) && RanAlone(s, i)
    ensures s.calls[i].before.dropped == Wrap(|EarlierDrops(encode, s, i)|)
    ensures s.calls[i].before.truncated == Wrap(CutTotal(encode, s, s.calls[i].finishedFirst))
  {
    ReplayInv(encode, acts, s);
    AloneKnows(encode, s, i);
    DroppedBeforeMeans(encode, acts, s, i);
    assert LoadsOk(encode, s, i);
    var c := s.calls[i];
    TotalStops(CutBy(encode, s), c.knownCuts, i, |s.calls|);
    TotalStops(CutBy(encode, s), c.finishedFirst, i, |s.calls|);
    ZerosDoNotCount(CutBy(encode, s), c.knownCuts, c.finishedFirst, i);
  }

  // Earlier drops this call was not told of, every one still under way when it took its
  // number (`DroppedBeforeMeans`).
  function UnderWay(encode: EncodeFn, s: State, i: nat): set<nat>
    requires i < |s.calls|
  {
    EarlierDrops(encode, s, i) - s.calls[i].knownDrops
  }

  // Drops with a later number that were counted before this call's load.
  function CountedLater(s: State, i: nat): set<nat>
    requires i < |s.calls|
  {
    set j | j in s.calls[i].knownDrops && j > i
  }

  // Once all earlier calls are over: a call was told exactly how many of them were dropped
  // if and only if as many of those were still under way as later ones had been counted.
  lemma GapExactIff(encode: EncodeFn, acts: seq<Action>, s: State, i: nat)
    requires Replay(encode, acts) == Some(s) && i < |s.calls| && HasLoadedDrops(s.calls[i])
    requires forall j | 0 <= j < i :: s.calls[j].pc.Done?
    ensures s.calls[i].before.dropped == Wrap(|EarlierDrops(encode, s, i)|) <==>
      Wrap(|UnderWay(encode, s, i)|) == Wrap(|CountedLater(s, i)|)
  {
    DroppedBeforeMeans(encode, acts, s, i);
    KnownSplits(encode, s, i);
    SizesDecide(s.calls[i].knownDrops, EarlierDrops(encode, s, i), CountedLater(s, i));
  }

  lemma KnownSplits(encode: EncodeFn, s: State, i: nat)
    requires i < |s.calls|
    requires forall j | j in s.calls[i].knownDrops :: j < |s.calls| && IsDropped(encode, s.calls[j]) && j != i
    ensures s.calls[i].knownDrops == EarlierDrops(encode, s, i) * s.calls[i].knownDrops + CountedLater(s, i)
    ensures EarlierDrops(encode, s, i) !! CountedLater(s, i)
  {
  }

  lemma SizesDecide(known: set<nat>, earlier: set<nat>, later: set<nat>)
    requires known == earlier * known + later && earlier !! later
    ensures Wrap(|known|) == Wrap(|earlier|) <==> Wrap(|earlier - known|) == Wrap(|later|)
  {
    assert earlier == earlier * known + (earlier - known);
    WrapCancels(|earlier * known|, |later|, |earlier - known|);
  }

  lemma WrapCancels(common: nat, a: nat, b: nat)
    ensures Wrap(common + a) == Wrap(common + b) <==> Wrap(b) == Wrap(a)
  {
  }

  lemma NoRoomIsRefused(c: Counts, a: Attempt, maxValueBytes: nat)
    requires a.cap == 0
    ensures Encoder(maxValueBytes)(c, a).Err?
  {
    EncodesExactly(EnvelopeNow(c, a), LimitsOf(maxValueBytes, a.scratch), a.cap);
  }

  // Overlap does spoil it: the second of two calls takes its number and loads before the
  // first, which has no room for its frame, is counted, and is told that nothing was dropped.
  lemma OverlapHidesADrop(maxValueBytes: nat, first: Attempt, second: Attempt)
    returns (acts: seq<Action>, s: State)
    requires first.cap == 0
    ensures Replay(Encoder(maxValueBytes), acts) == Some(s) && |s.calls| == 2 && HasLoadedDrops(s.calls[1])
    ensures s.calls[1].before.dropped == 0 && EarlierDrops(Encoder(maxValueBytes), s, 1) == {0} && s.calls[0].pc.Done?
  {
    forall c ensures Encoder(maxValueBytes)(c, first).Err? {
      NoRoomIsRefused(c, first, maxValueBytes);
    }
    acts, s := RefusalOverlapped(Encoder(maxValueBytes), first, second);
  }

  lemma RefusalOverlapped(encode: EncodeFn, first: Attempt, second: Attempt) returns (acts: seq<Action>, s: State)
    requires forall c :: encode(c, first).Err?
    ensures Replay(encode, acts) == Some(s) && |s.calls| == 2 && HasLoadedDrops(s.calls[1])
    ensures s.calls[1].before.dropped == 0 && EarlierDrops(encode, s, 1) == {0} && s.calls[0].pc.Done?
  {
    acts, s := Take(encode, [], INITIAL, Start(first));
    acts, s := Take(encode, acts, s, Start(second));
    acts, s := Take(encode, acts, s, Move(1));
    acts, s := Take(encode, acts, s, Move(0));
    acts, s := Take(encode, acts, s, Move(0));
    acts, s := Take(encode, acts, s, Move(0));
  }

  lemma Take(encode: EncodeFn, acts: seq<Action>, s: State, a: Action) returns (more: seq<Action>, t: State)
    requires Replay(encode, acts) == Some(s) && Step(encode, s, a).Some?
    ensures more == acts + [a] && Replay(encode, more) == Some(t) && t == Step(encode, s, a).value
  {
    more, t := acts + [a], Step(encode, s, a).value;
    assert more[..|acts|] == acts;
  }

  // ---- one call with nothing in between ----

  // A call takes its number and makes its loads.
  lemma CallLoads(encode: EncodeFn, acts: seq<Action>, s: State, a: Attempt) returns (more: seq<Action>, t: State)
    requires Replay(encode, acts) == Some(s)
    ensures Replay(encode, more) == Some(t)
    ensures more == acts + [Start(a), Move(|s.calls|), Move(|s.calls|)]
    ensures t.counts == s.counts.(sequence := Plus(s.counts.sequence, 1)) && |t.calls| == |s.calls| + 1
    ensures var c := t.calls[|s.calls|];
      c.pc.Encoding? && c.before == s.counts && c.attempt == a
  {
    var i := |s.calls|;
    more, t := Take(encode, acts, s, Start(a));
    more, t := Take(encode, more, t, Move(i));
    more, t := Take(encode, more, t, Move(i));
  }

  // It encodes, and accounts for the outcome.
  lemma CallEnds(encode: EncodeFn, acts: seq<Action>, s: State, i: nat) returns (more: seq<Action>, t: State)
    requires Replay(encode, acts) == Some(s) && i < |s.calls| && s.calls[i].pc.Encoding?
    ensures Replay(encode, more) == Some(t)
    ensures more == acts + [Move(i)] || more == acts + [Move(i), Move(i)]
    ensures |t.calls| == |s.calls| && t.calls[i] == s.calls[i].(pc := Done)
    ensures var r := ResultOf(encode, s.calls[i]);
      t.counts == Counts(s.counts.sequence,
                         Plus(s.counts.dropped, if Arrives(r, s.calls[i].attempt.host) then 0 else 1),
                         Plus(s.counts.truncated, TruncatedBy(r)))
  {
    more, t := Take(encode, acts, s, Move(i));
    if t.calls[i].pc.Refused? {
      more, t := Take(encode, more, t, Move(i));
    }
  }

  // The steps of one call in one go are the step of `Transport.Encode` and `Emit`.
  lemma CallAtOnce(encode: EncodeFn, acts: seq<Action>, s: State, a: Attempt) returns (more: seq<Action>, t: State)
    requires Replay(encode, acts) == Some(s)
    ensures Replay(encode, more) == Some(t) && acts <= more
    ensures forall i | |acts| < i < |more| :: more[i] == Move(|s.calls|)
    ensures |t.calls| == |s.calls| + 1 && t.calls[|s.calls|].pc.Done? && t.calls[|s.calls|].before == s.counts
    ensures t.counts == After(s.counts, encode(s.counts, a), a.host)
  {
    more, t := CallLoads(encode, acts, s, a);
    more, t := CallEnds(encode, more, t, |s.calls|);
  }
}
