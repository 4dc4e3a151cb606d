// What the totals of a read tell: how much was overwritten bounds what a complete read can
// have missed.

module FlightTotals {
  import opened Basics
  import opened Facade
  import opened FlightRecorder
  import opened FlightProtocol
  import opened FlightTheorems

  function GoneAll(s: State): seq<nat>
    requires Shaped(s)
  {
    seq(|s.shards|, i requires 0 <= i < |s.shards| => Gone(s, i))
  }

  function CutsIn(events: seq<OwnedEvent>): nat {
    if events == [] then 0 else CutsIn(events[..|events| - 1]) + events[|events| - 1].truncatedFields
  }

  // Shortened texts of a record that has its number but is not tallied yet.
  function Untallied(h: Holder): nat {
    if h.Numbered? && !h.tallied then h.event.truncatedFields else 0
  }

  function UntalliedAll(holders: seq<Holder>): seq<nat> {
    seq(|holders|, i requires 0 <= i < |holders| => Untallied(holders[i]))
  }

  // Every record gone from its shard was counted as overwritten, and every shortened text
  // of a numbered record is counted or about to be.
  ghost predicate TotalsOk(s: State)
    requires Shaped(s)
  {
    && s.overwritten == Sum(GoneAll(s))
    && s.truncated + Sum(UntalliedAll(s.holders)) == CutsIn(s.events)
  }

  // A reader saw no more gone than there is, and loaded no total before its last visit.
  ghost predicate ReaderTotalsOk(s: State, r: Reader)
    requires Shaped(s)
  {
    && |r.gone| == r.visited <= |s.shards| && |r.loads| <= 3
    && (forall h | 0 <= h < r.visited :: r.gone[h] <= Gone(s, h))
    && (r.loads != [] ==> r.visited == |s.shards|)
    && (forall k: nat | k < |r.loads| :: r.loads[k] <= TotalAt(s, k))
    && (|r.loads| > 1 ==> Sum(r.gone) <= r.loads[1])
  }

  ghost predicate Inv(s: State) {
    && Shaped(s) && TotalsOk(s)
    && forall id | id in s.readers :: ReaderTotalsOk(s, s.readers[id])
  }

  // Totals and what is gone only grow.
  ghost predicate Grows(s: State, t: State) {
    && Shaped(s) && Shaped(t) && |t.shards| == |s.shards|
    && s.dropped <= t.dropped && s.overwritten <= t.overwritten && s.truncated <= t.truncated
    && forall i | 0 <= i < |s.shards| :: Gone(s, i) <= Gone(t, i)
  }

  lemma StepGrows(s: State, a: Action, t: State)
    requires Shaped(s) && Step(s, a) == Some(t)
    ensures Grows(s, t)
  {
  }

  lemma ReaderStands(s: State, t: State, r: Reader)
    requires Grows(s, t) && ReaderTotalsOk(s, r)
    ensures ReaderTotalsOk(t, r)
  {
    forall k: nat | k < |r.loads| ensures r.loads[k] <= TotalAt(t, k) {
      assert r.loads[k] <= TotalAt(s, k);
    }
  }

  lemma {:induction false} SumGrows(xs: seq<nat>, ys: seq<nat>)
    requires |xs| <= |ys| && forall i | 0 <= i < |xs| :: xs[i] <= ys[i]
    ensures Sum(xs) <= Sum(ys)
    decreases |ys|
  {
    if ys != [] {
      SumGrows(if |xs| == |ys| then xs[..|xs| - 1] else xs, ys[..|ys| - 1]);
    }
  }

  lemma GoneUpdate(s: State, t: State, i: nat)
    requires Shaped(s) && Shaped(t) && |t.shards| == |s.shards| && i < |s.shards|
    requires forall j | 0 <= j < |s.shards| && j != i :: Gone(t, j) == Gone(s, j)
    ensures Sum(GoneAll(t)) + Gone(s, i) == Sum(GoneAll(s)) + Gone(t, i)
  {
    assert GoneAll(t) == GoneAll(s)[i := Gone(t, i)];
    SumUpdate(GoneAll(s), i, Gone(t, i));
  }

  lemma UntalliedUpdate(holders: seq<Holder>, i: nat, h: Holder)
    requires i < |holders|
    ensures Sum(UntalliedAll(holders[i := h])) + Untallied(holders[i]) == Sum(UntalliedAll(holders)) + Untallied(h)
  {
    assert UntalliedAll(holders[i := h]) == UntalliedAll(holders)[i := Untallied(h)];
    SumUpdate(UntalliedAll(holders), i, Untallied(h));
  }

  lemma BeginKeeps(s: State, i: nat, event: OwnedEvent)
    requires Shaped(s) && TotalsOk(s) && i < |s.shards| && s.holders[i].Free?
    ensures Shaped(BeginStep(s, i, event)) && TotalsOk(BeginStep(s, i, event))
  {
    var t := BeginStep(s, i, event);
    GoneUpdate(s, t, i);
    UntalliedUpdate(s.holders, i, Holding(event));
  }

  lemma NumberKeeps(s: State, i: nat)
    requires Shaped(s) && TotalsOk(s) && i < |s.shards| && s.holders[i].Holding?
    ensures Shaped(NumberStep(s, i)) && TotalsOk(NumberStep(s, i))
  {
    var t := NumberStep(s, i);
    GoneUpdate(s, t, i);
    UntalliedUpdate(s.holders, i, t.holders[i]);
    assert t.events[..|s.events|] == s.events;
  }

  lemma TallyKeeps(s: State, i: nat)
    requires Shaped(s) && TotalsOk(s) && i < |s.shards| && s.holders[i].Numbered? && !s.holders[i].tallied
    ensures Shaped(TallyStep(s, i)) && TotalsOk(TallyStep(s, i))
  {
    var t := TallyStep(s, i);
    GoneUpdate(s, t, i);
    UntalliedUpdate(s.holders, i, t.holders[i]);
  }

  lemma FinishKeeps(s: State, i: nat)
    requires Shaped(s) && TotalsOk(s) && i < |s.shards| && s.holders[i].Numbered? && s.holders[i].tallied
    ensures Shaped(FinishStep(s, i)) && TotalsOk(FinishStep(s, i))
  {
    var t := FinishStep(s, i);
    GoneUpdate(s, t, i);
    UntalliedUpdate(s.holders, i, Free);
  }

  lemma ReadersChangeNoTotals(s: State, t: State)
    requires Shaped(s) && TotalsOk(s) && t == s.(readers := t.readers, dropped := t.dropped)
    ensures Shaped(t) && TotalsOk(t)
  {
    assert GoneAll(t) == GoneAll(s);
  }

  lemma TotalsKept(s: State, a: Action, t: State)
    requires Shaped(s) && TotalsOk(s) && Step(s, a) == Some(t)
    ensures Shaped(t) && TotalsOk(t)
  {
    match a
    case Begin(i, event) => BeginKeeps(s, i, event);
    case Number(i) => NumberKeeps(s, i);
    case Tally(i) => TallyKeeps(s, i);
    case Finish(i) => FinishKeeps(s, i);
    case _ => ReadersChangeNoTotals(s, t);
  }

  lemma VisitKeeps(s: State, r: Reader, contended: bool)
    requires Shaped(s) && ReaderTotalsOk(s, r) && r.visited < |s.shards|
    ensures ReaderTotalsOk(s, VisitStep(s, r, contended))
  {
  }

  lemma LoadKeeps(s: State, r: Reader)
    requires Shaped(s) && TotalsOk(s) && ReaderTotalsOk(s, r) && r.visited == |s.shards| && |r.loads| < 3
    ensures ReaderTotalsOk(s, LoadStep(s, r))
  {
    SumGrows(r.gone, GoneAll(s));
  }

  lemma InvKept(s: State, a: Action, t: State)
    requires Inv(s) && Step(s, a) == Some(t)
    ensures Inv(t)
  {
    TotalsKept(s, a, t);
    StepGrows(s, a, t);
    forall id | id in t.readers ensures ReaderTotalsOk(t, t.readers[id]) {
      if id in s.readers && t.readers[id] == s.readers[id] {
        ReaderStands(s, t, s.readers[id]);
      } else {
        ReaderMoves(s, a, t, id);
      }
    }
  }

  // Only a read's own steps move it.
  lemma ReaderMoves(s: State, a: Action, t: State, id: nat)
    requires Inv(s) && Step(s, a) == Some(t) && Grows(s, t)
    requires id in t.readers && (id !in s.readers || t.readers[id] != s.readers[id])
    ensures ReaderTotalsOk(t, t.readers[id])
  {
    match a
    case ReadBegin(_, _, _) =>
    case ReadVisit(_, contended) =>
      VisitKeeps(s, s.readers[id], contended);
      ReaderStands(s, t, t.readers[id]);
    case ReadLoad(_) =>
      LoadKeeps(s, s.readers[id]);
      ReaderStands(s, t, t.readers[id]);
    case _ =>
  }

  lemma InitInv(capacity: nat, shards: nat)
    ensures Inv(Init(capacity, shards))
  {
    var s := Init(capacity, shards);
    SumZero(GoneAll(s));
    SumZero(UntalliedAll(s.holders));
  }

  lemma {:induction false} ReplayTotals(capacity: nat, shards: nat, acts: seq<Action>, s: State)
    requires Replay(capacity, shards, acts) == Some(s)
    ensures Inv(s)
    decreases |acts|
  {
    if acts == [] {
      InitInv(capacity, shards);
    } else {
      var before := Replay(capacity, shards, acts[..|acts| - 1]).value;
      ReplayTotals(capacity, shards, acts[..|acts| - 1], before);
      InvKept(before, acts[|acts| - 1], s);
    }
  }

  // ---- what a read's totals tell ----

  // With no writer inside a shard, the truncation counter is the number of shortened
  // texts of all numbered records.
  lemma TruncatedAtRest(capacity: nat, shards: nat, acts: seq<Action>, s: State)
    requires Replay(capacity, shards, acts) == Some(s) && AtRest(s)
    ensures s.truncated == CutsIn(s.events)
  {
    ReplayTotals(capacity, shards, acts, s);
    SumZero(UntalliedAll(s.holders));
  }

  // A finished read reports no more than has happened.
  lemma TotalsAreReal(capacity: nat, shards: nat, acts: seq<Action>, s: State, id: nat)
    requires Replay(capacity, shards, acts) == Some(s) && id in s.readers && IsFinished(s, s.readers[id])
    ensures var totals := FlightTheorems.Result(s.readers[id]).totals;
      totals.dropped <= s.dropped && totals.overwritten <= s.overwritten && totals.truncatedFields <= s.truncated
  {
    ReplayTotals(capacity, shards, acts, s);
    var r := s.readers[id];
    assert ReaderTotalsOk(s, r);
    assert r.loads[0] <= TotalAt(s, 0) && r.loads[1] <= TotalAt(s, 1) && r.loads[2] <= TotalAt(s, 2);
  }

  // The numbers of the window the read did not return.
  function Missed(r: Reader): set<nat> {
    set n: nat | r.cursor < n <= r.watermark && !Has(FlightTheorems.Result(r).records, n)
  }

  // The numbers of the first `count` records of a log.
  function FirstNumbers(log: seq<FlightRecord>, count: nat): (numbers: set<nat>)
    requires count <= |log|
    ensures |numbers| <= count
    ensures forall k | 0 <= k < count :: log[k].sequence in numbers
  {
    if count == 0 then {} else FirstNumbers(log, count - 1) + {log[count - 1].sequence}
  }

  // Those gone from the first `count` shards when they were visited.
  function GoneNumbers(logs: seq<seq<FlightRecord>>, gone: seq<nat>, count: nat): (numbers: set<nat>)
    requires count <= |gone| <= |logs| && forall h | 0 <= h < |gone| :: gone[h] <= |logs[h]|
    ensures |numbers| <= Sum(gone[..count])
    ensures forall h, k | 0 <= h < count && 0 <= k < gone[h] :: logs[h][k].sequence in numbers
  {
    if count == 0 then {}
    else
      assert gone[..count][..count - 1] == gone[..count - 1];
      GoneNumbers(logs, gone, count - 1) + FirstNumbers(logs[count - 1], gone[count - 1])
  }

  lemma MissedIsGone(capacity: nat, shards: nat, acts: seq<Action>, s: State, id: nat, n: nat)
    requires Replay(capacity, shards, acts) == Some(s)
    requires id in s.readers && IsFinished(s, s.readers[id]) && s.readers[id].busy == 0
    requires |s.readers[id].gone| <= |s.logs| && forall h | 0 <= h < |s.readers[id].gone| :: s.readers[id].gone[h] <= |s.logs[h]|
    requires n in Missed(s.readers[id])
    ensures n in GoneNumbers(s.logs, s.readers[id].gone, |s.readers[id].gone|)
  {
    ReplayInv(capacity, shards, acts, s);
    CompleteReadNeverSkips(capacity, shards, acts, s, id, n);
    assert PlacedOk(s, n);
    var h, k := HomeOf(s, n), SlotOf(s, n);
    assert s.logs[h][k].sequence == n;
  }

  // A complete read reports at least as many overwritten records as it missed.
  lemma LossesAreReported(capacity: nat, shards: nat, acts: seq<Action>, s: State, id: nat)
    requires Replay(capacity, shards, acts) == Some(s)
    requires id in s.readers && IsFinished(s, s.readers[id]) && s.readers[id].busy == 0
    ensures |Missed(s.readers[id])| <= FlightTheorems.Result(s.readers[id]).totals.overwritten
  {
    ReplayTotals(capacity, shards, acts, s);
    var r := s.readers[id];
    assert ReaderTotalsOk(s, r);
    var gone := GoneNumbers(s.logs, r.gone, |r.gone|);
    forall n | n in Missed(r) ensures n in gone {
      MissedIsGone(capacity, shards, acts, s, id, n);
    }
    SubsetIsSmaller(Missed(r), gone);
    assert r.gone[..|r.gone|] == r.gone;
  }

  lemma {:induction false} SubsetIsSmaller(a: set<nat>, b: set<nat>)
    requires a <= b
    ensures |a| <= |b|
    decreases |a|
  {
    if x :| x in a {
      SubsetIsSmaller(a - {x}, b - {x});
    }
  }
}
