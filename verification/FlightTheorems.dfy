// What a reader of the flight recorder may rely on, over every interleaving of
// writers and readers.

module FlightTheorems {
  import opened Basics
  import opened Facade
  import opened FlightRecorder
  import opened FlightProtocol

  function Replay(capacity: nat, shards: nat, acts: seq<Action>): (r: Option<State>)
    ensures r.Some? ==> Shaped(r.value)
    decreases |acts|
  {
    if acts == [] then Some(Init(capacity, shards))
    else
      var before := Replay(capacity, shards, acts[..|acts| - 1]);
      if before.None? then None else Step(before.value, acts[|acts| - 1])
  }

  lemma {:induction false} ReplayInv(capacity: nat, shards: nat, acts: seq<Action>, s: State)
    requires Replay(capacity, shards, acts) == Some(s)
    ensures Inv(s)
    decreases |acts|
  {
    if acts == [] {
      InitInv(capacity, shards);
    } else {
      var before := Replay(capacity, shards, acts[..|acts| - 1]).value;
      ReplayInv(capacity, shards, acts[..|acts| - 1], before);
      InvKept(before, acts[|acts| - 1], s);
    }
  }

  // ---- a finished read ----

  // All shards are visited and the totals loaded.
  predicate IsFinished(s: State, r: Reader) {
    r.visited == |s.shards| && |r.loads| == 3
  }

  function TotalsOf(r: Reader): Totals {
    if |r.loads| == 3 then Totals(r.loads[0], r.loads[1], r.loads[2]) else Totals(0, 0, 0)
  }

  function NextCursor(r: Reader): nat {
    if r.busy == 0 then Max(r.watermark, r.cursor) else r.cursor
  }

  function Result(r: Reader): FlightRead {
    FlightRead(r.cursor, NextCursor(r), Sorted(r.collected), TotalsOf(r), OmittedTotal(Sorted(r.collected)), r.busy)
  }

  lemma ResultMembers(s: State, r: Reader, record: FlightRecord)
    requires Counted(s) && ReaderOk(s, r)
    ensures record in Result(r).records <==> record in r.collected
    ensures Ascending(Result(r).records)
  {
    SortedKeepsElements(r.collected, record);
    SortedIsAscending(r.collected);
  }

  lemma ResultHas(s: State, r: Reader, n: nat)
    requires Counted(s) && ReaderOk(s, r)
    ensures Has(Result(r).records, n) <==> Has(r.collected, n)
  {
    if Has(r.collected, n) {
      var k :| 0 <= k < |r.collected| && r.collected[k].sequence == n;
      ResultMembers(s, r, r.collected[k]);
      var m :| 0 <= m < |Result(r).records| && Result(r).records[m] == r.collected[k];
    }
    if Has(Result(r).records, n) {
      var k :| 0 <= k < |Result(r).records| && Result(r).records[k].sequence == n;
      ResultMembers(s, r, Result(r).records[k]);
      var m :| 0 <= m < |r.collected| && r.collected[m] == Result(r).records[k];
    }
  }

  // ---- a complete read never skips ----

  // Number `n` had been pushed out of its shard by the time the reader got there.
  predicate OverwrittenBeforeVisit(s: State, r: Reader, n: nat)
    requires Counted(s) && Issued(s, n) && |r.gone| == |s.shards|
  {
    HomeOf(s, n) < |r.gone| && SlotOf(s, n) < r.gone[HomeOf(s, n)]
  }

  // With no busy shard, every number in (cursor, watermark] is either returned or
  // was overwritten before its shard was visited, never both, and what is returned
  // is the projection of the record accepted under that number.
  lemma CompleteReadNeverSkips(
      capacity: nat, shards: nat, acts: seq<Action>, s: State, id: nat, n: nat)
    requires Replay(capacity, shards, acts) == Some(s)
    requires id in s.readers && IsFinished(s, s.readers[id]) && s.readers[id].busy == 0
    requires s.readers[id].cursor < n <= s.readers[id].watermark
    ensures Counted(s) && Issued(s, n) && |s.readers[id].gone| == |s.shards|
    ensures Has(Result(s.readers[id]).records, n) <==> !OverwrittenBeforeVisit(s, s.readers[id], n)
    ensures Has(Result(s.readers[id]).records, n) ==>
      ProjectRecord(FlightRecord(n, EventOf(s, n)), s.readers[id].view) in Result(s.readers[id]).records
  {
    ReplayInv(capacity, shards, acts, s);
    var r := s.readers[id];
    assert ReaderOk(s, r) && Issued(s, n) && Covered(s, r, n) && PlacedOk(s, n);
    ResultHas(s, r, n);
    if Has(r.collected, n) {
      var k :| 0 <= k < |r.collected| && r.collected[k].sequence == n;
      assert CollectedOk(s, r, r.collected[k]);
      ResultMembers(s, r, r.collected[k]);
    }
  }

  // Complete or not, a read returns strictly ascending numbers from its window and
  // only projections of accepted records.
  lemma ReadIsSound(
      capacity: nat, shards: nat, acts: seq<Action>, s: State, id: nat, k: nat)
    requires Replay(capacity, shards, acts) == Some(s)
    requires id in s.readers && k < |Result(s.readers[id]).records|
    ensures Ascending(Result(s.readers[id]).records)
    ensures var n := Result(s.readers[id]).records[k].sequence;
      && Counted(s) && Issued(s, n) && s.readers[id].cursor < n <= s.readers[id].watermark
      && Result(s.readers[id]).records[k] == ProjectRecord(FlightRecord(n, EventOf(s, n)), s.readers[id].view)
  {
    ReplayInv(capacity, shards, acts, s);
    var r := s.readers[id];
    var record := Result(r).records[k];
    assert ReaderOk(s, r);
    ResultMembers(s, r, record);
    assert CollectedOk(s, r, record);
  }

  // ---- chaining reads ----

  // Each read starts where the one before it said to continue.
  predicate IsChain(s: State, ids: seq<nat>) {
    && (forall i :: 0 <= i < |ids| ==> ids[i] in s.readers && IsFinished(s, s.readers[ids[i]]))
    && (forall i :: 0 <= i < |ids| - 1 ==> s.readers[ids[i + 1]].cursor == NextCursor(s.readers[ids[i]]))
  }

  // ... and none found a shard busy.
  predicate AllComplete(s: State, ids: seq<nat>) {
    forall i :: 0 <= i < |ids| ==> ids[i] in s.readers && s.readers[ids[i]].busy == 0
  }

  function Stream(s: State, ids: seq<nat>): seq<FlightRecord>
    requires IsChain(s, ids)
  {
    if ids == [] then []
    else Stream(s, ids[..|ids| - 1]) + Result(s.readers[ids[|ids| - 1]]).records
  }

  lemma ResultWindow(s: State, r: Reader)
    requires Counted(s) && ReaderOk(s, r) && r.busy == 0
    ensures Ascending(Result(r).records) && r.cursor <= NextCursor(r)
    ensures forall k :: 0 <= k < |Result(r).records| ==> r.cursor < Result(r).records[k].sequence <= NextCursor(r)
  {
    SortedIsAscending(r.collected);
    var records := Result(r).records;
    forall k | 0 <= k < |records| ensures r.cursor < records[k].sequence <= NextCursor(r) {
      ResultMembers(s, r, records[k]);
      assert CollectedOk(s, r, records[k]);
    }
  }

  predicate Within(records: seq<FlightRecord>, low: nat, high: nat) {
    forall k :: 0 <= k < |records| ==> low < records[k].sequence <= high
  }

  lemma AscendingConcat(a: seq<FlightRecord>, b: seq<FlightRecord>, low: nat, middle: nat, high: nat)
    requires Ascending(a) && Ascending(b) && Within(a, low, middle) && Within(b, middle, high) && low <= middle <= high
    ensures Ascending(a + b) && Within(a + b, low, high)
  {
  }

  lemma {:induction false} StreamBelowCursor(s: State, ids: seq<nat>)
    requires Counted(s) && ReadersOk(s) && IsChain(s, ids) && AllComplete(s, ids) && ids != []
    ensures Ascending(Stream(s, ids)) && s.readers[ids[0]].cursor <= NextCursor(s.readers[ids[|ids| - 1]])
    ensures Within(Stream(s, ids), s.readers[ids[0]].cursor, NextCursor(s.readers[ids[|ids| - 1]]))
  {
    var last := |ids| - 1;
    var r := s.readers[ids[last]];
    ResultWindow(s, r);
    if last > 0 {
      StreamBelowCursor(s, ids[..last]);
      assert s.readers[ids[last - 1 + 1]].cursor == NextCursor(s.readers[ids[last - 1]]);
      AscendingConcat(Stream(s, ids[..last]), Result(r).records, s.readers[ids[0]].cursor, r.cursor, NextCursor(r));
    } else {
      assert Stream(s, ids[..0]) == [];
      assert Stream(s, ids) == Result(r).records;
    }
  }

  // Chained complete reads form one strictly ascending stream: nothing twice.
  lemma ChainedReadsAscend(capacity: nat, shards: nat, acts: seq<Action>, s: State, ids: seq<nat>)
    requires Replay(capacity, shards, acts) == Some(s)
    ensures IsChain(s, ids) && AllComplete(s, ids) ==> Ascending(Stream(s, ids))
  {
    ReplayInv(capacity, shards, acts, s);
    if IsChain(s, ids) && AllComplete(s, ids) && ids != [] { StreamBelowCursor(s, ids); }
  }

  // ... and nothing skipped, even when some reads found shards busy: a number between
  // the first cursor and the last is in the stream, or was overwritten before its shard
  // was visited by the complete read whose window it falls in.
  lemma {:induction false} ChainedReadsNeverSkip(
      capacity: nat, shards: nat, acts: seq<Action>, s: State, ids: seq<nat>, n: nat)
    requires Replay(capacity, shards, acts) == Some(s) && IsChain(s, ids) && ids != []
    requires s.readers[ids[0]].cursor < n <= NextCursor(s.readers[ids[|ids| - 1]])
    ensures Counted(s) && Issued(s, n)
    ensures Has(Stream(s, ids), n)
      || exists i :: 0 <= i < |ids| && |s.readers[ids[i]].gone| == |s.shards| && s.readers[ids[i]].busy == 0
           && s.readers[ids[i]].cursor < n && OverwrittenBeforeVisit(s, s.readers[ids[i]], n)
    decreases |ids|
  {
    var last := |ids| - 1;
    var r := s.readers[ids[last]];
    if n > r.cursor && r.busy == 0 {
      CompleteReadNeverSkips(capacity, shards, acts, s, ids[last], n);
      if Has(Result(r).records, n) {
        HasConcat(Stream(s, ids[..last]), Result(r).records, n);
      } else {
        assert OverwrittenBeforeVisit(s, s.readers[ids[last]], n);
      }
    } else {
      assert s.readers[ids[last - 1 + 1]].cursor == NextCursor(s.readers[ids[last - 1]]);
      ChainedReadsNeverSkip(capacity, shards, acts, s, ids[..last], n);
      if Has(Stream(s, ids[..last]), n) {
        HasConcat(Stream(s, ids[..last]), Result(r).records, n);
      } else {
        var i :| 0 <= i < last && |s.readers[ids[..last][i]].gone| == |s.shards| && s.readers[ids[..last][i]].busy == 0
          && s.readers[ids[..last][i]].cursor < n && OverwrittenBeforeVisit(s, s.readers[ids[..last][i]], n);
        assert OverwrittenBeforeVisit(s, s.readers[ids[i]], n);
      }
    }
  }

  // ---- retention ----

  predicate AtRest(s: State) {
    forall i :: 0 <= i < |s.holders| ==> s.holders[i].Free?
  }

  // Each shard holds exactly the newest part of what it was ever given.
  lemma ShardHoldsNewestSuffix(capacity: nat, shards: nat, acts: seq<Action>, s: State, i: nat)
    requires Replay(capacity, shards, acts) == Some(s) && i < |s.shards|
    ensures s.shards[i].records == s.logs[i][|s.logs[i]| - |s.shards[i].records|..]
    ensures Ascending(s.shards[i].records)
    ensures s.holders[i].Free? ==> |s.shards[i].records| == Min(s.shards[i].capacity, |s.logs[i]|)
  {
    ReplayInv(capacity, shards, acts, s);
    assert RetentionOk(s, i) && LogOk(s, i);
  }

  // At rest the counters account for every number issued.
  lemma CountersAtRest(capacity: nat, shards: nat, acts: seq<Action>, s: State)
    requires Replay(capacity, shards, acts) == Some(s) && AtRest(s)
    ensures s.accepted == s.next == s.overwritten + Sum(Retained(s.shards))
  {
    ReplayInv(capacity, shards, acts, s);
    SumZero(Pending(s.holders));
  }

  // Capacity is handed out once and for all, and none of it is lost.
  lemma {:induction false} CapacityIsConserved(capacity: nat, shards: nat, acts: seq<Action>, s: State)
    requires Replay(capacity, shards, acts) == Some(s)
    ensures |s.shards| == ShardCount(capacity, shards) && Total(s.shards) == capacity
    ensures forall i :: 0 <= i < |s.shards| ==> s.shards[i].capacity == ShardCapacity(capacity, |s.shards|, i)
    decreases |acts|
  {
    if acts != [] {
      CapacityIsConserved(capacity, shards, acts[..|acts| - 1], Replay(capacity, shards, acts[..|acts| - 1]).value);
    }
    SplitIsExact(capacity, shards, s.shards);
  }

  // What the tail leaves out is older than everything it keeps.
  lemma NewestIsNewest(records: seq<FlightRecord>, limit: nat, n: nat)
    requires Ascending(records) && Has(records, n) && !Has(Newest(records, limit), n)
    ensures forall k :: 0 <= k < |Newest(records, limit)| ==> n < Newest(records, limit)[k].sequence
  {
    var tail := Newest(records, limit);
    var cut := |records| - |tail|;
    forall j | cut <= j < |records| ensures records[j].sequence != n {
      assert records[j] == tail[j - cut];
    }
    var k :| 0 <= k < |records| && records[k].sequence == n;
    assert forall m :: 0 <= m < |tail| ==> tail[m] == records[cut + m];
  }

  lemma {:induction false} OmittedSplits(front: seq<FlightRecord>, back: seq<FlightRecord>)
    ensures OmittedTotal(front + back) == OmittedTotal(front) + OmittedTotal(back)
    decreases |back|
  {
    if back == [] {
      assert front + back == front;
    } else {
      var n := |back| - 1;
      OmittedSplits(front, back[..n]);
      assert (front + back)[..|front| + n] == front + back[..n];
    }
  }

  // The records a tail leaves out, which its totals still count.
  function Older(records: seq<FlightRecord>, limit: nat): seq<FlightRecord> {
    records[..|records| - |Newest(records, limit)|]
  }

  lemma TailStillCounts(records: seq<FlightRecord>, limit: nat)
    ensures OmittedTotal(records) == OmittedTotal(Older(records, limit)) + OmittedTotal(Newest(records, limit))
  {
    OmittedSplits(Older(records, limit), Newest(records, limit));
    assert Older(records, limit) + Newest(records, limit) == records;
  }

  predicate IsRetained(s: State, n: nat) {
    exists i :: 0 <= i < |s.shards| && Has(s.shards[i].records, n)
  }

  lemma RetainedIsRead(s: State, r: Reader, n: nat)
    requires RecordsOk(s) && AtRest(s) && ReaderOk(s, r) && IsFinished(s, r) && r.busy == 0
    requires r.cursor == 0 && r.watermark == s.next && IsRetained(s, n)
    ensures Has(r.collected, n)
  {
    var i :| 0 <= i < |s.shards| && Has(s.shards[i].records, n);
    var k :| 0 <= k < |s.shards[i].records| && s.shards[i].records[k].sequence == n;
    assert RetentionOk(s, i) && LogOk(s, i);
    assert s.logs[i][Gone(s, i) + k].sequence == n;
    assert Covered(s, r, n);
  }

  lemma ReadIsRetained(s: State, r: Reader, n: nat)
    requires RecordsOk(s) && AtRest(s) && ReaderOk(s, r) && IsFinished(s, r) && r.busy == 0
    requires r.watermark == s.next && Has(r.collected, n)
    ensures IsRetained(s, n)
  {
    var k :| 0 <= k < |r.collected| && r.collected[k].sequence == n;
    assert CollectedOk(s, r, r.collected[k]) && PlacedOk(s, n);
    var h := HomeOf(s, n);
    assert RetentionOk(s, h) && s.holders[h].Free?;
    assert r.gone[h] == Gone(s, h);
    assert s.shards[h].records[SlotOf(s, n) - Gone(s, h)].sequence == n;
    assert Has(s.shards[h].records, n);
  }

  // A read from the start that sees a recorder at rest returns exactly what is
  // retained, so its tail is the newest `limit` of all retained records. The fields
  // counted as omitted are still those of the whole read.
  lemma TailAtRest(
      capacity: nat, shards: nat, acts: seq<Action>, s: State, id: nat, limit: nat, n: nat)
    requires Replay(capacity, shards, acts) == Some(s) && AtRest(s)
    requires id in s.readers && IsFinished(s, s.readers[id]) && s.readers[id].busy == 0
    requires s.readers[id].cursor == 0 && s.readers[id].watermark == s.next
    ensures var whole := Result(s.readers[id]).records;
      && (Has(whole, n) <==> IsRetained(s, n))
      && |Newest(whole, limit)| == Min(limit, |whole|)
      && Result(s.readers[id]).omittedFields == OmittedTotal(Older(whole, limit)) + OmittedTotal(Newest(whole, limit))
      && (IsRetained(s, n) && !Has(Newest(whole, limit), n) ==>
            forall k :: 0 <= k < |Newest(whole, limit)| ==> n < Newest(whole, limit)[k].sequence)
  {
    ReplayInv(capacity, shards, acts, s);
    var r := s.readers[id];
    assert ReaderOk(s, r);
    var whole := Result(r).records;
    ResultHas(s, r, n);
    SortedIsAscending(r.collected);
    TailStillCounts(whole, limit);
    if IsRetained(s, n) { RetainedIsRead(s, r, n); }
    if Has(r.collected, n) { ReadIsRetained(s, r, n); }
    if Has(whole, n) && !Has(Newest(whole, limit), n) { NewestIsNewest(whole, limit, n); }
  }

  // ---- the in-place recorder reads the same way ----

  function VisitFirst(s: State, r: Reader, contended: set<nat>, count: nat): (q: Reader)
    requires Shaped(s) && r.visited == 0 && count <= |s.shards|
    ensures q.visited == count
  {
    if count == 0 then r
    else VisitStep(s, VisitFirst(s, r, contended, count - 1), count - 1 in contended)
  }

  lemma {:induction false} VisitFirstGathers(s: State, r: Reader, contended: set<nat>, count: nat)
    requires Shaped(s) && count <= |s.shards|
    requires r.visited == 0 && r.busy == 0 && r.collected == []
    ensures var q := VisitFirst(s, r, contended, count);
      && q.cursor == r.cursor && q.view == r.view && q.watermark == r.watermark && q.loads == r.loads
      && q.busy == CountBusy(count, contended)
      && q.collected == Gather(s.shards[..count], contended, r.cursor, r.watermark, r.view)
  {
    if count > 0 {
      VisitFirstGathers(s, r, contended, count - 1);
      assert s.shards[..count][..count - 1] == s.shards[..count - 1];
    }
  }

  // The steps of a whole read: it begins, and then visits each shard once.
  function ReadActions(id: nat, cursor: nat, view: RecorderView, contended: set<nat>, count: nat): seq<Action> {
    if count == 0 then [ReadBegin(id, cursor, view)]
    else ReadActions(id, cursor, view, contended, count - 1) + [ReadVisit(id, count - 1 in contended)]
  }

  predicate OthersAreFree(s: State, contended: set<nat>)
    requires Shaped(s)
  {
    forall i | 0 <= i < |s.shards| && i !in contended :: s.holders[i].Free?
  }

  lemma ReplayOne(capacity: nat, shards: nat, acts: seq<Action>, a: Action)
    requires Replay(capacity, shards, acts).Some?
    ensures Replay(capacity, shards, acts + [a]) == Step(Replay(capacity, shards, acts).value, a)
  {
    assert (acts + [a])[..|acts|] == acts;
  }

  lemma {:induction false} ReadReplays(
      capacity: nat, shards: nat, acts: seq<Action>, s: State, id: nat, cursor: nat, view: RecorderView,
      contended: set<nat>, count: nat)
    requires Replay(capacity, shards, acts) == Some(s) && id !in s.readers
    requires count <= |s.shards| && OthersAreFree(s, contended)
    ensures Replay(capacity, shards, acts + ReadActions(id, cursor, view, contended, count))
      == Some(s.(readers := s.readers[id := VisitFirst(s, Reader(cursor, view, s.next, 0, 0, [], [], []), contended, count)]))
  {
    if count == 0 {
      ReplayOne(capacity, shards, acts, ReadBegin(id, cursor, view));
    } else {
      ReadReplays(capacity, shards, acts, s, id, cursor, view, contended, count - 1);
      var before := acts + ReadActions(id, cursor, view, contended, count - 1);
      var r := VisitFirst(s, Reader(cursor, view, s.next, 0, 0, [], [], []), contended, count - 1);
      VisitReplays(capacity, shards, before, s, id, r, count - 1 in contended);
      assert acts + ReadActions(id, cursor, view, contended, count) == before + [ReadVisit(id, count - 1 in contended)];
    }
  }

  lemma VisitReplays(
      capacity: nat, shards: nat, before: seq<Action>, s: State, id: nat, r: Reader, contended: bool)
    requires Shaped(s) && Replay(capacity, shards, before) == Some(s.(readers := s.readers[id := r]))
    requires r.visited < |s.shards| && (contended || s.holders[r.visited].Free?)
    ensures Replay(capacity, shards, before + [ReadVisit(id, contended)])
      == Some(s.(readers := s.readers[id := VisitStep(s, r, contended)]))
  {
    ReplayOne(capacity, shards, before, ReadVisit(id, contended));
    VisitIsStep(s, s.(readers := s.readers[id := r]), id, r, contended);
  }

  lemma VisitIsStep(s: State, m: State, id: nat, r: Reader, contended: bool)
    requires Shaped(s) && m == s.(readers := s.readers[id := r])
    requires r.visited < |s.shards| && (contended || s.holders[r.visited].Free?)
    ensures Step(m, ReadVisit(id, contended)) == Some(s.(readers := s.readers[id := VisitStep(s, r, contended)]))
  {
    var after := VisitStep(s, r, contended);
    assert s.readers[id := r][id := after] == s.readers[id := after];
  }

  // The loads that end a read.
  function LoadActions(id: nat): seq<Action> {
    [ReadLoad(id), ReadLoad(id), ReadLoad(id)]
  }

  function StatsOf(s: State): Totals {
    Totals(s.dropped, s.overwritten, s.truncated)
  }

  lemma LoadsReplay(capacity: nat, shards: nat, before: seq<Action>, s: State, id: nat, r: Reader)
    requires Shaped(s) && Replay(capacity, shards, before) == Some(s.(readers := s.readers[id := r]))
    requires r.visited == |s.shards| && r.loads == []
    ensures Replay(capacity, shards, before + LoadActions(id))
      == Some(s.(readers := s.readers[id := r.(loads := [s.dropped, s.overwritten, s.truncated])]))
  {
    var a, b := r.(loads := [s.dropped]), r.(loads := [s.dropped, s.overwritten]);
    LoadReplays(capacity, shards, before, s, id, r);
    assert LoadStep(s, r) == a && LoadStep(s, a) == b;
    LoadReplays(capacity, shards, before + [ReadLoad(id)], s, id, a);
    LoadReplays(capacity, shards, before + [ReadLoad(id)] + [ReadLoad(id)], s, id, b);
    assert LoadStep(s, b) == r.(loads := [s.dropped, s.overwritten, s.truncated]);
    assert before + LoadActions(id) == before + [ReadLoad(id)] + [ReadLoad(id)] + [ReadLoad(id)];
  }

  lemma LoadReplays(capacity: nat, shards: nat, before: seq<Action>, s: State, id: nat, r: Reader)
    requires Shaped(s) && Replay(capacity, shards, before) == Some(s.(readers := s.readers[id := r]))
    requires r.visited == |s.shards| && |r.loads| < 3
    ensures Replay(capacity, shards, before + [ReadLoad(id)])
      == Some(s.(readers := s.readers[id := LoadStep(s, r)]))
  {
    ReplayOne(capacity, shards, before, ReadLoad(id));
    LoadIsStep(s, s.(readers := s.readers[id := r]), id, r);
  }

  lemma LoadIsStep(s: State, m: State, id: nat, r: Reader)
    requires Shaped(s) && m == s.(readers := s.readers[id := r])
    requires r.visited == |s.shards| && |r.loads| < 3
    ensures Step(m, ReadLoad(id)) == Some(s.(readers := s.readers[id := LoadStep(s, r)]))
  {
    var after := LoadStep(s, r);
    assert s.readers[id := r][id := after] == s.readers[id := after];
  }

  // A read whose steps nobody comes between is a run of the protocol, finishes, and
  // returns what `FlightRecorder.ReadSince` computes.
  lemma UndisturbedRead(
      capacity: nat, shards: nat, acts: seq<Action>, s: State, id: nat, cursor: nat, view: RecorderView,
      contended: set<nat>)
    requires Replay(capacity, shards, acts) == Some(s) && id !in s.readers && OthersAreFree(s, contended)
    ensures var t := Replay(capacity, shards,
                            acts + ReadActions(id, cursor, view, contended, |s.shards|) + LoadActions(id));
      && t.Some? && id in t.value.readers && t.value == s.(readers := t.value.readers)
      && IsFinished(t.value, t.value.readers[id])
      && Result(t.value.readers[id]) == ReadOf(s.shards, s.next, StatsOf(s), contended, cursor, view)
  {
    var start := Reader(cursor, view, s.next, 0, 0, [], [], []);
    ReadReplays(capacity, shards, acts, s, id, cursor, view, contended, |s.shards|);
    VisitFirstGathers(s, start, contended, |s.shards|);
    LoadsReplay(capacity, shards, acts + ReadActions(id, cursor, view, contended, |s.shards|), s, id,
                VisitFirst(s, start, contended, |s.shards|));
    assert s.shards[..|s.shards|] == s.shards;
  }
}
