// The heartbeat watcher: a map of pending deadlines, and a loop that handles one message
// and then sweeps for deadlines that have passed.

module Heartbeat {
  import opened Basics

  datatype Beat = Beat(deadline: nat, warned: bool)

  datatype Message = Register(id: u64, deadline: nat) | Complete(id: u64) | Timeout

  // One missed-deadline record from the watcher.
  datatype Record = Record(id: u64, missedBy: nat)

  type Beats = map<u64, Beat>

  predicate IsLate(b: Beat, now: nat) {
    !b.warned && now >= b.deadline
  }

  // ---- what one turn of the loop does ----

  // The map after a message, and the record it causes, if any.
  function Handled(beats: Beats, m: Message, now: nat): Beats {
    match m
    case Register(id, deadline) => beats[id := Beat(deadline, false)]
    case Complete(id) => beats - {id}
    case Timeout => beats
  }

  function HandledRecords(beats: Beats, m: Message, now: nat): seq<Record> {
    if m.Complete? && m.id in beats && IsLate(beats[m.id], now)
    then [Record(m.id, now - beats[m.id].deadline)] else []
  }

  function Swept(beats: Beats, now: nat): Beats {
    SweptAmong(beats, beats.Keys, now)
  }

  function SweptAmong(beats: Beats, among: set<u64>, now: nat): Beats {
    map id | id in beats :: if id in among && IsLate(beats[id], now) then beats[id].(warned := true) else beats[id]
  }

  // Exactly one record for each late heartbeat, and no other, in some order.
  predicate SweepRecords(beats: Beats, now: nat, records: seq<Record>) {
    RecordsAmong(beats, beats.Keys, now, records)
  }

  predicate RecordsAmong(beats: Beats, among: set<u64>, now: nat, records: seq<Record>) {
    && (forall i | 0 <= i < |records| ::
          var r := records[i];
          r.id in among && r.id in beats && IsLate(beats[r.id], now) && r.missedBy == now - beats[r.id].deadline)
    && (forall i, j | 0 <= i < j < |records| :: records[i].id != records[j].id)
    && (forall id | id in among && id in beats && IsLate(beats[id], now) :: Mentions(records, id))
  }

  predicate Mentions(records: seq<Record>, id: u64) {
    exists i :: 0 <= i < |records| && records[i].id == id
  }

  lemma MentionsMore(records: seq<Record>, r: Record)
    ensures Mentions(records + [r], r.id)
    ensures forall id | Mentions(records, id) :: Mentions(records + [r], id)
  {
    assert (records + [r])[|records|] == r;
    forall id | Mentions(records, id) ensures Mentions(records + [r], id) {
      var i :| 0 <= i < |records| && records[i].id == id;
      assert (records + [r])[i].id == id;
    }
  }

  // What looking at one heartbeat does.
  function Marked(beats: Beats, id: u64, now: nat): Beats
    requires id in beats
  {
    if IsLate(beats[id], now) then beats[id := beats[id].(warned := true)] else beats
  }

  function MarkRecords(beats: Beats, id: u64, now: nat): seq<Record>
    requires id in beats
  {
    if IsLate(beats[id], now) then [Record(id, now - beats[id].deadline)] else []
  }

  // A sweep of `was` that has yet to look at `left`.
  predicate Midway(was: Beats, left: set<u64>, now: nat, beats: Beats, records: seq<Record>) {
    beats == SweptAmong(was, was.Keys - left, now) && RecordsAmong(was, was.Keys - left, now, records)
  }

  lemma MidwayAtFirst(was: Beats, now: nat)
    ensures Midway(was, was.Keys, now, was, [])
  {
  }

  // One more heartbeat looked at.
  lemma OneMoreSwept(was: Beats, left: set<u64>, now: nat, beats: Beats, records: seq<Record>, id: u64)
    requires Midway(was, left, now, beats, records) && left <= was.Keys && id in left
    ensures id in beats
    ensures Midway(was, left - {id}, now, Marked(beats, id, now), records + MarkRecords(beats, id, now))
  {
    assert was.Keys - (left - {id}) == (was.Keys - left) + {id};
    RecordOneMore(was, was.Keys - left, now, records, id);
    MarkOneMore(was, was.Keys - left, now, id);
  }

  lemma RecordOneMore(was: Beats, among: set<u64>, now: nat, records: seq<Record>, id: u64)
    requires RecordsAmong(was, among, now, records) && id in was && id !in among
    ensures RecordsAmong(was, among + {id}, now, records + MarkRecords(was, id, now))
  {
    if IsLate(was[id], now) {
      MentionsMore(records, Record(id, now - was[id].deadline));
    } else {
      assert records + [] == records;
    }
  }

  lemma MarkOneMore(was: Beats, among: set<u64>, now: nat, id: u64)
    requires id in was && id !in among
    ensures SweptAmong(was, among, now)[id] == was[id]
    ensures SweptAmong(was, among + {id}, now) == Marked(SweptAmong(was, among, now), id, now)
  {
  }

  lemma SweptAll(was: Beats, now: nat, beats: Beats, records: seq<Record>)
    requires Midway(was, {}, now, beats, records)
    ensures beats == Swept(was, now) && SweepRecords(was, now, records)
  {
    assert was.Keys - {} == was.Keys;
  }

  // ---- the watcher ----

  class Watcher {
    var beats: Beats

    constructor ()
      ensures beats == map[]
    {
      beats := map[];
    }

    // The earliest deadline that has not been warned about: how long to wait.
    method NextDeadline() returns (next: Option<nat>)
      ensures next.None? <==> forall id | id in beats :: beats[id].warned
      ensures next.Some? ==> exists id :: id in beats && !beats[id].warned && beats[id].deadline == next.value
      ensures next.Some? ==> forall id | id in beats && !beats[id].warned :: next.value <= beats[id].deadline
    {
      next := None;
      var left := beats.Keys;
      while left != {}
        invariant left <= beats.Keys
        invariant next.None? <==> forall id | id in beats && id !in left :: beats[id].warned
        invariant next.Some? ==> exists id :: id in beats && !beats[id].warned && beats[id].deadline == next.value
        invariant next.Some? ==> forall id | id in beats && id !in left && !beats[id].warned :: next.value <= beats[id].deadline
        decreases |left|
      {
        var id :| id in left;
        left := left - {id};
        var b := beats[id];
        if !b.warned && (next.None? || b.deadline < next.value) {
          next := Some(b.deadline);
        }
      }
    }

    method Handle(m: Message, now: nat) returns (records: seq<Record>)
      modifies this
      ensures beats == Handled(old(beats), m, now) && records == HandledRecords(old(beats), m, now)
      ensures |records| == (if m.Complete? && m.id in old(beats) && !old(beats)[m.id].warned && old(beats)[m.id].deadline <= now then 1 else 0)
      ensures |records| == 1 ==> records[0].id == m.id && old(beats)[m.id].deadline + records[0].missedBy == now
    {
      records := [];
      match m {
        case Register(id, deadline) =>
          beats := beats[id := Beat(deadline, false)];
        case Complete(id) =>
          if id in beats {
            var b := beats[id];
            beats := beats - {id};
            if !b.warned && now >= b.deadline {
              records := [Record(id, now - b.deadline)];
            }
          } else {
            assert beats - {id} == beats;
          }
        case Timeout =>
      }
    }

    method Sweep(now: nat) returns (records: seq<Record>)
      modifies this
      ensures beats == Swept(old(beats), now) && SweepRecords(old(beats), now, records)
    {
      records := [];
      ghost var was := beats;
      ghost var midway := (l: set<u64>, b: Beats, r: seq<Record>) => Midway(was, l, now, b, r);
      var left := beats.Keys;
      MidwayAtFirst(was, now);
      while left != {}
        invariant left <= was.Keys && midway(left, beats, records)
        decreases |left|
      {
        var id :| id in left;
        OneMoreSwept(was, left, now, beats, records, id);
        left := left - {id};
        ghost var marked, more := Marked(beats, id, now), records + MarkRecords(beats, id, now);
        var b := beats[id];
        if !b.warned && now >= b.deadline {
          records := records + [Record(id, now - b.deadline)];
          beats := beats[id := b.(warned := true)];
        }
        assert beats == marked && records == more;
      }
      SweptAll(was, now, beats, records);
    }
  }

  // ---- runs ----

  // One turn: a message (or a timeout) handled at one time, then a sweep at another.
  datatype Turn = Turn(message: Message, handledAt: nat, sweptAt: nat, swept: seq<Record>)

  // The watcher's map and every record it has written.
  datatype State = State(beats: Beats, records: seq<Record>, clock: nat, registered: set<u64>)

  const START := State(map[], [], 0, {})

  // Time only moves forward and an id is registered at most once.
  predicate Possible(s: State, t: Turn) {
    && s.clock <= t.handledAt <= t.sweptAt
    && (t.message.Register? ==> t.message.id !in s.registered)
    && SweepRecords(Handled(s.beats, t.message, t.handledAt), t.sweptAt, t.swept)
  }

  function Next(s: State, t: Turn): State {
    var handled := Handled(s.beats, t.message, t.handledAt);
    State(Swept(handled, t.sweptAt), s.records + HandledRecords(s.beats, t.message, t.handledAt) + t.swept, t.sweptAt,
          if t.message.Register? then s.registered + {t.message.id} else s.registered)
  }

  function Run(turns: seq<Turn>): Option<State> {
    if turns == [] then Some(START)
    else
      var s := Run(turns[..|turns| - 1]);
      if s.Some? && Possible(s.value, turns[|turns| - 1]) then Some(Next(s.value, turns[|turns| - 1])) else None
  }

  function Count(records: seq<Record>, id: u64): nat {
    if records == [] then 0
    else Count(records[..|records| - 1], id) + (if records[|records| - 1].id == id then 1 else 0)
  }

  // Before an id is registered it has no record; while it is watched it has one exactly
  // when it was warned about, and that is when its deadline passed.
  predicate Inv(s: State) {
    && s.beats.Keys <= s.registered
    && (forall id | id !in s.registered :: Count(s.records, id) == 0)
    && (forall id :: Count(s.records, id) <= 1)
    && (forall id | id in s.beats ::
          && (Count(s.records, id) == 1 <==> s.beats[id].warned)
          && (s.beats[id].warned <==> s.beats[id].deadline <= s.clock))
  }

  lemma {:induction false} CountBoth(x: seq<Record>, y: seq<Record>, id: u64)
    ensures Count(x + y, id) == Count(x, id) + Count(y, id)
    decreases |y|
  {
    if y == [] {
      assert x + y == x;
    } else {
      var n := |y| - 1;
      CountBoth(x, y[..n], id);
      assert (x + y)[..|x| + n] == x + y[..n];
    }
  }

  lemma {:induction false} CountOnce(records: seq<Record>, id: u64)
    requires forall i, j | 0 <= i < j < |records| :: records[i].id != records[j].id
    ensures Count(records, id) == if Mentions(records, id) then 1 else 0
  {
    if records != [] {
      var n := |records| - 1;
      CountOnce(records[..n], id);
      if Mentions(records[..n], id) {
        var i :| 0 <= i < n && records[..n][i].id == id;
        assert records[i].id == id;
      }
    }
  }

  lemma SweepCount(beats: Beats, now: nat, records: seq<Record>, id: u64)
    requires SweepRecords(beats, now, records)
    ensures Count(records, id) == if id in beats && IsLate(beats[id], now) then 1 else 0
  {
    CountOnce(records, id);
  }

  lemma HandledCount(beats: Beats, m: Message, now: nat, id: u64)
    ensures Count(HandledRecords(beats, m, now), id)
      == if m == Complete(id) && id in beats && IsLate(beats[id], now) then 1 else 0
  {
    var first := HandledRecords(beats, m, now);
    assert Count([], id) == 0;
    if first != [] {
      assert first[..0] == [];
    }
  }

  lemma CountThree(x: seq<Record>, y: seq<Record>, z: seq<Record>, id: u64)
    ensures Count(x + y + z, id) == Count(x, id) + Count(y, id) + Count(z, id)
  {
    CountBoth(x + y, z, id);
    CountBoth(x, y, id);
  }

  // The records one turn adds for an id.
  lemma TurnCount(s: State, t: Turn, id: u64)
    requires Possible(s, t)
    ensures var handled := Handled(s.beats, t.message, t.handledAt);
      Count(Next(s, t).records, id) == Count(s.records, id)
        + (if t.message == Complete(id) && id in s.beats && IsLate(s.beats[id], t.handledAt) then 1 else 0)
        + (if id in handled && IsLate(handled[id], t.sweptAt) then 1 else 0)
  {
    CountThree(s.records, HandledRecords(s.beats, t.message, t.handledAt), t.swept, id);
    HandledCount(s.beats, t.message, t.handledAt, id);
    SweepCount(Handled(s.beats, t.message, t.handledAt), t.sweptAt, t.swept, id);
  }

  lemma TurnKeeps(s: State, t: Turn)
    requires Inv(s) && Possible(s, t)
    ensures Inv(Next(s, t))
  {
    forall id ensures
      var n := Next(s, t);
      && Count(n.records, id) <= 1 && (id !in n.registered ==> Count(n.records, id) == 0)
      && (id in n.beats ==> (Count(n.records, id) == 1 <==> n.beats[id].warned)
                            && (n.beats[id].warned <==> n.beats[id].deadline <= n.clock))
    {
      TurnCount(s, t, id);
    }
  }

  lemma {:induction false} RunKeeps(turns: seq<Turn>)
    requires Run(turns).Some?
    ensures Inv(Run(turns).value)
  {
    if turns == [] {
      assert forall id :: Count([], id) == 0;
    } else {
      RunKeeps(turns[..|turns| - 1]);
      TurnKeeps(Run(turns[..|turns| - 1]).value, turns[|turns| - 1]);
    }
  }

  // Over every run: at most one record per heartbeat, and after every sweep each
  // heartbeat not yet warned about has its deadline still ahead.
  lemma AtMostOneRecord(turns: seq<Turn>, id: u64)
    requires Run(turns).Some?
    ensures Count(Run(turns).value.records, id) <= 1
    ensures id in Run(turns).value.beats && !Run(turns).value.beats[id].warned ==>
      Run(turns).value.clock < Run(turns).value.beats[id].deadline
  {
    RunKeeps(turns);
  }

  // A watched heartbeat whose completion is handled at time t ends with exactly one
  // record if t is at or past its deadline, and with none otherwise.
  lemma RecordedExactlyWhenLate(turns: seq<Turn>, t: Turn, id: u64)
    requires Run(turns).Some? && Possible(Run(turns).value, t)
    requires t.message == Complete(id) && id in Run(turns).value.beats
    ensures Count(Next(Run(turns).value, t).records, id)
      == if t.handledAt >= Run(turns).value.beats[id].deadline then 1 else 0
  {
    RunKeeps(turns);
    TurnCount(Run(turns).value, t, id);
  }

  // ---- what the records say ----

  predicate Registers(t: Turn, id: u64, deadline: nat) {
    t.message == Register(id, deadline)
  }

  ghost predicate WasRegistered(turns: seq<Turn>, id: u64, deadline: nat) {
    exists i :: 0 <= i < |turns| && Registers(turns[i], id, deadline)
  }

  // In this turn a heartbeat's completion, or the sweep, came `missedBy` after `deadline`.
  predicate Misses(t: Turn, r: Record, deadline: nat) {
    (t.message == Complete(r.id) && t.handledAt == deadline + r.missedBy) || t.sweptAt == deadline + r.missedBy
  }

  ghost predicate IsTrue(turns: seq<Turn>, r: Record) {
    exists j, deadline :: 0 <= j < |turns| && WasRegistered(turns[..j + 1], r.id, deadline) && Misses(turns[j], r, deadline)
  }

  lemma RegisteredStill(turns: seq<Turn>, n: nat, id: u64, deadline: nat)
    requires n <= |turns| && WasRegistered(turns[..n], id, deadline)
    ensures WasRegistered(turns, id, deadline)
  {
    var i :| 0 <= i < n && Registers(turns[..n][i], id, deadline);
    assert Registers(turns[i], id, deadline);
  }

  lemma TrueStill(turns: seq<Turn>, n: nat, r: Record)
    requires n <= |turns| && IsTrue(turns[..n], r)
    ensures IsTrue(turns, r)
  {
    var j, deadline :| 0 <= j < n && WasRegistered(turns[..n][..j + 1], r.id, deadline) && Misses(turns[..n][j], r, deadline);
    assert turns[..n][..j + 1] == turns[..j + 1];
    assert Misses(turns[j], r, deadline);
  }

  // A sweep changes no deadline, and a message only the one it registers.
  lemma DeadlinesStand(beats: Beats, m: Message, handledAt: nat, sweptAt: nat, id: u64)
    requires id in Swept(Handled(beats, m, handledAt), sweptAt)
    ensures id in Handled(beats, m, handledAt)
    ensures Swept(Handled(beats, m, handledAt), sweptAt)[id].deadline == Handled(beats, m, handledAt)[id].deadline
  {
  }

  lemma MessageRegisters(beats: Beats, m: Message, now: nat, id: u64)
    requires id in Handled(beats, m, now)
    ensures m == Register(id, Handled(beats, m, now)[id].deadline) || (id in beats && Handled(beats, m, now)[id] == beats[id])
  {
  }

  // What is watched was registered with the deadline it has.
  lemma {:induction false} WatchedWasRegistered(turns: seq<Turn>, id: u64)
    requires Run(turns).Some? && id in Run(turns).value.beats
    ensures WasRegistered(turns, id, Run(turns).value.beats[id].deadline)
    decreases |turns|, 1
  {
    var n := |turns| - 1;
    var t := turns[n];
    DeadlinesStand(Run(turns[..n]).value.beats, t.message, t.handledAt, t.sweptAt, id);
    HandledWasRegistered(turns, Run(turns[..n]).value.beats, id);
  }

  // ... already after the message of the last turn.
  lemma {:induction false} HandledWasRegistered(turns: seq<Turn>, before: Beats, id: u64)
    requires turns != [] && Run(turns[..|turns| - 1]).Some? && before == Run(turns[..|turns| - 1]).value.beats
    requires id in Handled(before, turns[|turns| - 1].message, turns[|turns| - 1].handledAt)
    ensures WasRegistered(turns, id, Handled(before, turns[|turns| - 1].message, turns[|turns| - 1].handledAt)[id].deadline)
    decreases |turns|, 0
  {
    var n := |turns| - 1;
    var deadline := Handled(before, turns[n].message, turns[n].handledAt)[id].deadline;
    MessageRegisters(before, turns[n].message, turns[n].handledAt, id);
    if turns[n].message == Register(id, deadline) {
      assert Registers(turns[n], id, deadline);
    } else {
      WatchedWasRegistered(turns[..n], id);
      RegisteredStill(turns, n, id, deadline);
    }
  }

  lemma TurnTellsTheTruth(turns: seq<Turn>, r: Record)
    requires turns != [] && Run(turns).Some?
    requires var s, t := Run(turns[..|turns| - 1]).value, turns[|turns| - 1];
      r in HandledRecords(s.beats, t.message, t.handledAt) || r in t.swept
    ensures IsTrue(turns, r)
  {
    var n := |turns| - 1;
    var s, t := Run(turns[..n]).value, turns[n];
    assert turns[..n + 1] == turns;
    if r in HandledRecords(s.beats, t.message, t.handledAt) {
      WatchedWasRegistered(turns[..n], r.id);
      RegisteredStill(turns, n, r.id, s.beats[r.id].deadline);
      assert Misses(turns[n], r, s.beats[r.id].deadline);
    } else {
      HandledWasRegistered(turns, s.beats, r.id);
      assert Misses(turns[n], r, Handled(s.beats, t.message, t.handledAt)[r.id].deadline);
    }
  }

  // Over every run each record tells the truth: its heartbeat was registered with some
  // deadline, and a later completion or sweep came exactly so long after it.
  lemma {:induction false} RecordsAreTrue(turns: seq<Turn>, r: Record)
    requires Run(turns).Some? && r in Run(turns).value.records
    ensures IsTrue(turns, r)
    decreases |turns|
  {
    var n := |turns| - 1;
    var s, t := Run(turns[..n]).value, turns[n];
    if r in s.records {
      RecordsAreTrue(turns[..n], r);
      TrueStill(turns, n, r);
    } else {
      TurnTellsTheTruth(turns, r);
    }
  }

  // Once completed, a heartbeat's total never changes again.
  lemma {:induction false} TotalIsFinal(turns: seq<Turn>, k: nat, id: u64)
    requires k <= |turns| && Run(turns).Some? && Run(turns[..k]).Some?
    requires id in Run(turns[..k]).value.registered && id !in Run(turns[..k]).value.beats
    ensures id in Run(turns).value.registered && id !in Run(turns).value.beats
    ensures Count(Run(turns).value.records, id) == Count(Run(turns[..k]).value.records, id)
    decreases |turns|
  {
    var n := |turns| - 1;
    if k == |turns| {
      assert turns[..k] == turns;
    } else {
      assert turns[..n][..k] == turns[..k];
      TotalIsFinal(turns[..n], k, id);
      TurnCount(Run(turns[..n]).value, turns[n], id);
    }
  }
}
