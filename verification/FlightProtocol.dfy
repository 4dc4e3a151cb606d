// Writers and readers of the flight recorder interleaved. A writer numbers its
// record while it holds its shard; a reader loads the watermark first and then
// tries each shard once, never waiting.

module FlightProtocol {
  import opened Basics
  import opened Facade
  import opened FlightRecorder

  // A shard's lock: free, held by a writer that has made room but has no number
  // yet, or held by one that has taken its number and not yet stored the record;
  // `tallied` once the texts it shortened are counted.
  datatype Holder =
    | Free
    | Holding(event: OwnedEvent)
    | Numbered(event: OwnedEvent, sequence: nat, tallied: bool)

  // `gone` remembers, for each shard already visited, how many of its records had
  // been overwritten by then. `loads` are the totals loaded once all shards are
  // visited: dropped, overwritten and truncated fields, one after the other.
  datatype Reader = Reader(
    cursor: nat,
    view: RecorderView,
    watermark: nat,
    visited: nat,
    busy: nat,
    collected: seq<FlightRecord>,
    gone: seq<nat>,
    loads: seq<nat>)

  // `logs` lists everything each shard ever stored. The other three sequences are
  // indexed by record number minus one: the record, its shard, and its position in
  // that shard's log.
  datatype State = State(
    shards: seq<Shard>,
    holders: seq<Holder>,
    next: nat,
    accepted: nat,
    dropped: nat,
    overwritten: nat,
    truncated: nat,
    readers: map<nat, Reader>,
    logs: seq<seq<FlightRecord>>,
    events: seq<OwnedEvent>,
    home: seq<nat>,
    slot: seq<nat>)

  function Init(capacity: nat, shards: nat): State {
    var n := ShardCount(capacity, shards);
    State(seq(n, i requires 0 <= i < n => Shard(ShardCapacity(capacity, n, i), [])),
          seq(n, _ => Free), 0, 0, 0, 0, 0, map[], seq(n, _ => []), [], [], [])
  }

  datatype Action =
    | Begin(shard: nat, event: OwnedEvent)
    | Contend
    | Number(shard: nat)
    | Tally(shard: nat)
    | Finish(shard: nat)
    | ReadBegin(id: nat, cursor: nat, view: RecorderView)
    | ReadVisit(id: nat, contended: bool)
    | ReadLoad(id: nat)

  predicate Shaped(s: State) {
    && |s.shards| == |s.holders| == |s.logs| > 0
    && forall i :: 0 <= i < |s.shards| ==> |s.shards[i].records| <= |s.logs[i]|
  }

  function Gone(s: State, i: nat): nat
    requires Shaped(s) && i < |s.shards|
  {
    |s.logs[i]| - |s.shards[i].records|
  }

  function BeginStep(s: State, i: nat, event: OwnedEvent): State
    requires Shaped(s) && i < |s.shards|
  {
    var shard := s.shards[i];
    if shard.capacity == 0 then s.(dropped := s.dropped + 1)
    else if |shard.records| == shard.capacity then
      s.(shards := s.shards[i := shard.(records := shard.records[1..])],
         holders := s.holders[i := Holding(event)], overwritten := s.overwritten + 1)
    else s.(holders := s.holders[i := Holding(event)])
  }

  function NumberStep(s: State, i: nat): State
    requires Shaped(s) && i < |s.shards| && s.holders[i].Holding?
  {
    s.(next := s.next + 1, holders := s.holders[i := Numbered(s.holders[i].event, s.next + 1, false)],
       events := s.events + [s.holders[i].event], home := s.home + [i], slot := s.slot + [|s.logs[i]|])
  }

  function TallyStep(s: State, i: nat): State
    requires i < |s.holders| && s.holders[i].Numbered?
  {
    s.(truncated := s.truncated + s.holders[i].event.truncatedFields,
       holders := s.holders[i := s.holders[i].(tallied := true)])
  }

  function FinishStep(s: State, i: nat): State
    requires Shaped(s) && i < |s.shards| && s.holders[i].Numbered?
  {
    var record := FlightRecord(s.holders[i].sequence, s.holders[i].event);
    s.(shards := s.shards[i := s.shards[i].(records := s.shards[i].records + [record])],
       logs := s.logs[i := s.logs[i] + [record]], holders := s.holders[i := Free], accepted := s.accepted + 1)
  }

  function VisitStep(s: State, r: Reader, contended: bool): Reader
    requires Shaped(s) && r.visited < |s.shards|
  {
    if contended then r.(visited := r.visited + 1, busy := r.busy + 1, gone := r.gone + [0])
    else r.(visited := r.visited + 1,
            collected := r.collected + Select(s.shards[r.visited].records, r.cursor, r.watermark, r.view),
            gone := r.gone + [Gone(s, r.visited)])
  }

  // A read has three totals to load.
  function TotalAt(s: State, k: nat): nat {
    if k == 0 then s.dropped else if k == 1 then s.overwritten else s.truncated
  }

  function LoadStep(s: State, r: Reader): Reader {
    r.(loads := r.loads + [TotalAt(s, |r.loads|)])
  }

  function Step(s: State, a: Action): Option<State>
    requires Shaped(s)
  {
    match a
    case Begin(i, event) => if i < |s.shards| && s.holders[i].Free? then Some(BeginStep(s, i, event)) else None
    case Contend => Some(s.(dropped := s.dropped + 1))
    case Number(i) => if i < |s.shards| && s.holders[i].Holding? then Some(NumberStep(s, i)) else None
    case Tally(i) =>
      if i < |s.shards| && s.holders[i].Numbered? && !s.holders[i].tallied then Some(TallyStep(s, i)) else None
    case Finish(i) =>
      if i < |s.shards| && s.holders[i].Numbered? && s.holders[i].tallied then Some(FinishStep(s, i)) else None
    case ReadBegin(id, cursor, view) =>
      if id in s.readers then None
      else Some(s.(readers := s.readers[id := Reader(cursor, view, s.next, 0, 0, [], [], [])]))
    case ReadVisit(id, contended) =>
      if id in s.readers && s.readers[id].visited < |s.shards| && (contended || s.holders[s.readers[id].visited].Free?)
      then Some(s.(readers := s.readers[id := VisitStep(s, s.readers[id], contended)])) else None
    case ReadLoad(id) =>
      if id in s.readers && s.readers[id].visited == |s.shards| && |s.readers[id].loads| < 3
      then Some(s.(readers := s.readers[id := LoadStep(s, s.readers[id])])) else None
  }

  // ---- invariants ----

  predicate Counted(s: State) {
    Shaped(s) && |s.events| == |s.home| == |s.slot| == s.next
  }

  predicate Issued(s: State, n: nat) {
    1 <= n <= s.next
  }

  function HomeOf(s: State, n: nat): nat
    requires Counted(s) && Issued(s, n)
  {
    s.home[n - 1]
  }

  function SlotOf(s: State, n: nat): nat
    requires Counted(s) && Issued(s, n)
  {
    s.slot[n - 1]
  }

  function EventOf(s: State, n: nat): OwnedEvent
    requires Counted(s) && Issued(s, n)
  {
    s.events[n - 1]
  }

  predicate IsNumbered(h: Holder, event: OwnedEvent, n: nat) {
    h.Numbered? && h.event == event && h.sequence == n
  }

  // Number `n` is recorded once: at its slot in its shard's log, or in the hands of
  // the writer holding that shard.
  ghost predicate PlacedOk(s: State, n: nat)
    requires Counted(s)
  {
    Issued(s, n) ==>
      && HomeOf(s, n) < |s.shards|
      && var h := HomeOf(s, n);
         && SlotOf(s, n) <= |s.logs[h]|
         && (SlotOf(s, n) < |s.logs[h]| ==> s.logs[h][SlotOf(s, n)] == FlightRecord(n, EventOf(s, n)))
         && (SlotOf(s, n) == |s.logs[h]| ==> IsNumbered(s.holders[h], EventOf(s, n), n))
  }

  ghost predicate LogOk(s: State, i: nat)
    requires Counted(s) && i < |s.shards|
  {
    var log := s.logs[i];
    && Ascending(log)
    && (forall k :: 0 <= k < |log| ==>
          Issued(s, log[k].sequence) && HomeOf(s, log[k].sequence) == i && SlotOf(s, log[k].sequence) == k)
    && (s.holders[i].Numbered? ==>
          var n := s.holders[i].sequence;
          && Issued(s, n) && HomeOf(s, n) == i && EventOf(s, n) == s.holders[i].event && SlotOf(s, n) == |log|
          && forall k :: 0 <= k < |log| ==> log[k].sequence < n)
  }

  // A shard holds the newest suffix of its log, as long as its capacity allows.
  ghost predicate RetentionOk(s: State, i: nat)
    requires Shaped(s) && i < |s.shards|
  {
    var shard := s.shards[i];
    && shard.records == s.logs[i][Gone(s, i)..]
    && (s.holders[i].Free? ==> |shard.records| == Min(shard.capacity, |s.logs[i]|))
    && (!s.holders[i].Free? ==> shard.capacity > 0 && |shard.records| == Min(shard.capacity - 1, |s.logs[i]|))
  }

  ghost predicate RecordsOk(s: State) {
    && Counted(s)
    && (forall i :: 0 <= i < |s.shards| ==> LogOk(s, i))
    && (forall i :: 0 <= i < |s.shards| ==> RetentionOk(s, i))
    && (forall n: nat :: Issued(s, n) ==> PlacedOk(s, n))
  }

  predicate Has(records: seq<FlightRecord>, n: nat) {
    exists k :: 0 <= k < |records| && records[k].sequence == n
  }

  // Everything collected is the projection of an accepted record in the window
  // that had not been overwritten when its shard was visited.
  ghost predicate CollectedOk(s: State, r: Reader, record: FlightRecord)
    requires Counted(s) && |r.gone| == r.visited
  {
    var n := record.sequence;
    && r.cursor < n <= r.watermark && Issued(s, n) && HomeOf(s, n) < r.visited
    && r.gone[HomeOf(s, n)] <= SlotOf(s, n)
    && record == ProjectRecord(FlightRecord(n, EventOf(s, n)), r.view)
  }

  // Number `n`, if its shard was visited, was collected or already overwritten.
  ghost predicate Covered(s: State, r: Reader, n: nat)
    requires Counted(s) && |r.gone| == r.visited
  {
    r.cursor < n <= r.watermark && Issued(s, n) && HomeOf(s, n) < r.visited ==>
      SlotOf(s, n) < r.gone[HomeOf(s, n)] || Has(r.collected, n)
  }

  ghost predicate ReaderOk(s: State, r: Reader)
    requires Counted(s)
  {
    && r.visited <= |s.shards| && |r.gone| == r.visited && r.watermark <= s.next
    && DistinctSequences(r.collected)
    && (forall k :: 0 <= k < |r.collected| ==> CollectedOk(s, r, r.collected[k]))
    && (r.busy == 0 ==> forall n: nat :: Issued(s, n) ==> Covered(s, r, n))
    && (r.busy == 0 ==> forall h :: 0 <= h < r.visited ==>
          r.gone[h] == Gone(s, h) || r.watermark < s.next || s.holders[h].Holding?)
  }

  ghost predicate ReadersOk(s: State)
    requires Counted(s)
  {
    forall id :: id in s.readers ==> ReaderOk(s, s.readers[id])
  }

  // ---- preservation: writers ----

  lemma BeginKeepsRetention(s: State, i: nat, event: OwnedEvent)
    requires Shaped(s) && i < |s.shards| && s.holders[i].Free? && RetentionOk(s, i)
    ensures Shaped(BeginStep(s, i, event)) && RetentionOk(BeginStep(s, i, event), i)
  {
    var t := BeginStep(s, i, event);
    var shard := s.shards[i];
    if shard.capacity > 0 && |shard.records| == shard.capacity {
      assert Gone(t, i) == Gone(s, i) + 1;
      assert t.shards[i].records == s.logs[i][Gone(s, i)..][1..];
    }
  }

  // The logs and numbering stand still, and no number changes hands.
  ghost predicate SameNumbers(s: State, t: State) {
    && Counted(s) && Counted(t) && t.next == s.next && t.events == s.events && t.home == s.home && t.slot == s.slot
    && t.logs == s.logs
    && forall i :: 0 <= i < |s.holders| ==>
         SameHolder(s.holders[i], t.holders[i]) || (!s.holders[i].Numbered? && !t.holders[i].Numbered?)
  }

  predicate SameHolder(g: Holder, h: Holder) {
    g == h || (g.Numbered? && IsNumbered(h, g.event, g.sequence))
  }

  lemma SameNumbersLog(s: State, t: State, i: nat)
    requires SameNumbers(s, t) && i < |s.shards| && LogOk(s, i)
    ensures LogOk(t, i)
  {
    forall k | 0 <= k < |t.logs[i]|
      ensures Issued(t, t.logs[i][k].sequence) && HomeOf(t, t.logs[i][k].sequence) == i && SlotOf(t, t.logs[i][k].sequence) == k
    {
      assert HomeOf(s, s.logs[i][k].sequence) == i;
    }
  }

  lemma SameNumbersKeeps(s: State, t: State)
    requires RecordsOk(s) && SameNumbers(s, t) && forall i :: 0 <= i < |t.shards| ==> RetentionOk(t, i)
    ensures RecordsOk(t)
  {
    forall i | 0 <= i < |t.shards| ensures LogOk(t, i) { SameNumbersLog(s, t, i); }
    forall n: nat | Issued(t, n) ensures PlacedOk(t, n) { assert PlacedOk(s, n); }
  }

  lemma BeginKeepsRecords(s: State, i: nat, event: OwnedEvent)
    requires RecordsOk(s) && i < |s.shards| && s.holders[i].Free?
    ensures RecordsOk(BeginStep(s, i, event))
  {
    var t := BeginStep(s, i, event);
    assert RetentionOk(s, i);
    BeginKeepsRetention(s, i, event);
    forall j | 0 <= j < |t.shards| ensures RetentionOk(t, j) {
      if j != i { assert RetentionOk(s, j); }
    }
    SameNumbersKeeps(s, t);
  }

  lemma TallyKeepsRecords(s: State, i: nat)
    requires RecordsOk(s) && i < |s.shards| && s.holders[i].Numbered?
    ensures RecordsOk(TallyStep(s, i))
  {
    var t := TallyStep(s, i);
    forall j | 0 <= j < |t.shards| ensures RetentionOk(t, j) { assert RetentionOk(s, j); }
    SameNumbersKeeps(s, t);
  }

  lemma NumberKeepsRecords(s: State, i: nat)
    requires RecordsOk(s) && i < |s.shards| && s.holders[i].Holding?
    ensures RecordsOk(NumberStep(s, i))
  {
    var t := NumberStep(s, i);
    forall j | 0 <= j < |t.shards| ensures LogOk(t, j) && RetentionOk(t, j) {
      assert LogOk(s, j) && RetentionOk(s, j);
    }
    forall n: nat | Issued(t, n) ensures PlacedOk(t, n) {
      if n <= s.next {
        assert PlacedOk(s, n);
      }
    }
  }

  lemma FinishKeepsRecords(s: State, i: nat)
    requires RecordsOk(s) && i < |s.shards| && s.holders[i].Numbered?
    ensures RecordsOk(FinishStep(s, i))
  {
    var t := FinishStep(s, i);
    assert LogOk(s, i) && RetentionOk(s, i) && PlacedOk(s, s.holders[i].sequence);
    FinishKeepsLog(s, i);
    FinishKeepsRetention(s, i);
    forall j | 0 <= j < |t.shards| ensures LogOk(t, j) && RetentionOk(t, j) {
      assert LogOk(s, j) && RetentionOk(s, j);
      if j != i { FinishKeepsOthers(s, i, j); }
    }
    forall n: nat | Issued(t, n) ensures PlacedOk(t, n) {
      assert PlacedOk(s, n);
      FinishKeepsPlace(s, i, n);
    }
  }

  lemma FinishKeepsLog(s: State, i: nat)
    requires Counted(s) && i < |s.shards| && s.holders[i].Numbered? && LogOk(s, i)
    ensures Counted(FinishStep(s, i)) && LogOk(FinishStep(s, i), i)
  {
  }

  lemma FinishKeepsRetention(s: State, i: nat)
    requires Shaped(s) && i < |s.shards| && s.holders[i].Numbered? && RetentionOk(s, i)
    ensures Shaped(FinishStep(s, i)) && RetentionOk(FinishStep(s, i), i)
  {
    var t := FinishStep(s, i);
    assert Gone(t, i) == Gone(s, i);
  }

  lemma FinishKeepsOthers(s: State, i: nat, j: nat)
    requires Counted(s) && i < |s.shards| && j < |s.shards| && i != j && s.holders[i].Numbered?
    requires LogOk(s, j) && RetentionOk(s, j)
    ensures Counted(FinishStep(s, i)) && LogOk(FinishStep(s, i), j) && RetentionOk(FinishStep(s, i), j)
  {
  }

  lemma FinishKeepsPlace(s: State, i: nat, n: nat)
    requires Counted(s) && i < |s.shards| && s.holders[i].Numbered? && LogOk(s, i) && PlacedOk(s, n)
    ensures Counted(FinishStep(s, i)) && PlacedOk(FinishStep(s, i), n)
  {
  }

  // Numbers already issued keep their record, shard and slot.
  ghost predicate Extends(s: State, t: State) {
    && Counted(s) && Counted(t) && |t.shards| == |s.shards|
    && s.next <= t.next
    && s.events == t.events[..s.next] && s.home == t.home[..s.next] && s.slot == t.slot[..s.next]
  }

  lemma ExtendsKeepsNumbers(s: State, t: State, n: nat)
    requires Extends(s, t) && Issued(s, n)
    ensures Issued(t, n) && HomeOf(t, n) == HomeOf(s, n) && SlotOf(t, n) == SlotOf(s, n) && EventOf(t, n) == EventOf(s, n)
  {
  }

  lemma ExtendsKeepsReader(s: State, t: State, r: Reader)
    requires Extends(s, t) && ReaderOk(s, r)
    requires forall h :: 0 <= h < r.visited && r.gone[h] == Gone(s, h) ==>
      Gone(t, h) == Gone(s, h) || t.holders[h].Holding?
    requires forall h :: 0 <= h < |s.shards| && s.holders[h].Holding? ==> t.holders[h].Holding? || s.next < t.next
    ensures ReaderOk(t, r)
  {
    forall k | 0 <= k < |r.collected| ensures CollectedOk(t, r, r.collected[k]) {
      assert CollectedOk(s, r, r.collected[k]);
      ExtendsKeepsNumbers(s, t, r.collected[k].sequence);
    }
    if r.busy == 0 {
      forall n: nat | Issued(t, n) ensures Covered(t, r, n) {
        if n <= r.watermark {
          assert Issued(s, n) && Covered(s, r, n);
          ExtendsKeepsNumbers(s, t, n);
        }
      }
    }
  }

  // A writer's step never disturbs what a reader has already established.
  lemma WriterKeepsReader(s: State, a: Action, t: State, r: Reader)
    requires RecordsOk(s) && ReaderOk(s, r)
    requires (a.Begin? || a.Number? || a.Tally? || a.Finish? || a.Contend?) && Step(s, a) == Some(t)
    ensures Counted(t) && ReaderOk(t, r)
  {
    assert Counted(t) && Extends(s, t);
    ExtendsKeepsReader(s, t, r);
  }

  // ---- preservation: readers ----

  lemma {:induction false} SelectKeepsOrder(records: seq<FlightRecord>, cursor: nat, watermark: nat, view: RecorderView)
    requires Ascending(records)
    ensures Ascending(Select(records, cursor, watermark, view))
  {
    if records != [] {
      var n := |records| - 1;
      SelectKeepsOrder(records[..n], cursor, watermark, view);
      var earlier := Select(records[..n], cursor, watermark, view);
      forall k | 0 <= k < |earlier| ensures earlier[k].sequence < records[n].sequence {
        SelectExact(records[..n], cursor, watermark, view, earlier[k]);
        var m :| 0 <= m < n && InWindow(records[..n][m], cursor, watermark) && ProjectRecord(records[..n][m], view) == earlier[k];
        assert records[m].sequence < records[n].sequence;
      }
    }
  }

  // Whatever an unheld shard yields is retained, in the window, and its own.
  lemma FoundIsOk(s: State, r: Reader, record: FlightRecord)
    requires RecordsOk(s) && ReaderOk(s, r) && r.visited < |s.shards|
    requires record in Select(s.shards[r.visited].records, r.cursor, r.watermark, r.view)
    ensures CollectedOk(s, VisitStep(s, r, false), record) && HomeOf(s, record.sequence) == r.visited
  {
    var h := r.visited;
    var records := s.shards[h].records;
    SelectExact(records, r.cursor, r.watermark, r.view, record);
    var m :| 0 <= m < |records| && InWindow(records[m], r.cursor, r.watermark) && ProjectRecord(records[m], r.view) == record;
    assert RetentionOk(s, h) && LogOk(s, h);
    assert records[m] == s.logs[h][Gone(s, h) + m];
    assert PlacedOk(s, records[m].sequence);
  }

  // An unheld shard yields every number of its own that is in the window and not
  // overwritten.
  lemma FoundCovers(s: State, r: Reader, n: nat)
    requires RecordsOk(s) && ReaderOk(s, r) && r.visited < |s.shards| && s.holders[r.visited].Free?
    requires Issued(s, n) && r.cursor < n <= r.watermark && HomeOf(s, n) == r.visited && SlotOf(s, n) >= Gone(s, r.visited)
    ensures Has(Select(s.shards[r.visited].records, r.cursor, r.watermark, r.view), n)
  {
    var h := r.visited;
    var records := s.shards[h].records;
    assert PlacedOk(s, n) && RetentionOk(s, h);
    var m := SlotOf(s, n) - Gone(s, h);
    assert records[m] == s.logs[h][SlotOf(s, n)];
    var image := ProjectRecord(records[m], r.view);
    assert InWindow(records[m], r.cursor, r.watermark);
    SelectExact(records, r.cursor, r.watermark, r.view, image);
    var found := Select(records, r.cursor, r.watermark, r.view);
    var k :| 0 <= k < |found| && found[k] == image;
  }

  lemma HasConcat(a: seq<FlightRecord>, b: seq<FlightRecord>, n: nat)
    requires Has(a, n) || Has(b, n)
    ensures Has(a + b, n)
  {
    if Has(a, n) {
      var k :| 0 <= k < |a| && a[k].sequence == n;
      assert (a + b)[k].sequence == n;
    } else {
      var k :| 0 <= k < |b| && b[k].sequence == n;
      assert (a + b)[|a| + k].sequence == n;
    }
  }

  lemma VisitKeepsReader(s: State, r: Reader)
    requires RecordsOk(s) && ReaderOk(s, r) && r.visited < |s.shards| && s.holders[r.visited].Free?
    ensures ReaderOk(s, VisitStep(s, r, false))
  {
    var q := VisitStep(s, r, false);
    var found := Select(s.shards[r.visited].records, r.cursor, r.watermark, r.view);
    forall k | 0 <= k < |q.collected|
      ensures CollectedOk(s, q, q.collected[k])
      ensures HomeOf(s, q.collected[k].sequence) == r.visited <==> k >= |r.collected|
    {
      if k < |r.collected| {
        assert CollectedOk(s, r, r.collected[k]);
      } else {
        FoundIsOk(s, r, found[k - |r.collected|]);
      }
    }
    assert DistinctSequences(q.collected) by {
      assert LogOk(s, r.visited) && RetentionOk(s, r.visited);
      SelectKeepsOrder(s.shards[r.visited].records, r.cursor, r.watermark, r.view);
    }
    if q.busy == 0 {
      forall n: nat | Issued(s, n) ensures Covered(s, q, n) {
        assert Covered(s, r, n);
        if r.cursor < n <= r.watermark && HomeOf(s, n) <= r.visited {
          if HomeOf(s, n) == r.visited && SlotOf(s, n) >= Gone(s, r.visited) { FoundCovers(s, r, n); }
          if Has(r.collected, n) || Has(found, n) { HasConcat(r.collected, found, n); }
        }
      }
    }
  }

  lemma SkipKeepsReader(s: State, r: Reader)
    requires RecordsOk(s) && ReaderOk(s, r) && r.visited < |s.shards|
    ensures ReaderOk(s, VisitStep(s, r, true))
  {
    var q := VisitStep(s, r, true);
    forall k | 0 <= k < |q.collected| ensures CollectedOk(s, q, q.collected[k]) {
      assert CollectedOk(s, r, r.collected[k]);
    }
  }

  // ---- counting ----

  function Sum(xs: seq<nat>): nat {
    if xs == [] then 0 else Sum(xs[..|xs| - 1]) + xs[|xs| - 1]
  }

  lemma {:induction false} SumUpdate(xs: seq<nat>, i: nat, x: nat)
    requires i < |xs|
    ensures Sum(xs[i := x]) + xs[i] == Sum(xs) + x
  {
    var n := |xs| - 1;
    if i < n {
      SumUpdate(xs[..n], i, x);
      assert xs[i := x][..n] == xs[..n][i := x];
    } else {
      assert xs[i := x][..n] == xs[..n];
    }
  }

  lemma {:induction false} SumZero(xs: seq<nat>)
    requires forall i :: 0 <= i < |xs| ==> xs[i] == 0
    ensures Sum(xs) == 0
  {
    if xs != [] { SumZero(xs[..|xs| - 1]); }
  }

  function Retained(shards: seq<Shard>): seq<nat> {
    seq(|shards|, i requires 0 <= i < |shards| => |shards[i].records|)
  }

  function HasNumber(h: Holder): nat {
    if h.Numbered? then 1 else 0
  }

  function Pending(holders: seq<Holder>): seq<nat> {
    seq(|holders|, i requires 0 <= i < |holders| => HasNumber(holders[i]))
  }

  // Every number is stored or about to be; everything stored is retained or was
  // overwritten.
  ghost predicate BooksOk(s: State) {
    && s.next == s.accepted + Sum(Pending(s.holders))
    && s.accepted == s.overwritten + Sum(Retained(s.shards))
  }

  lemma RetainedUpdate(shards: seq<Shard>, i: nat, shard: Shard)
    requires i < |shards|
    ensures Sum(Retained(shards[i := shard])) + |shards[i].records| == Sum(Retained(shards)) + |shard.records|
  {
    SumUpdate(Retained(shards), i, |shard.records|);
    assert Retained(shards[i := shard]) == Retained(shards)[i := |shard.records|];
  }

  lemma PendingUpdate(holders: seq<Holder>, i: nat, h: Holder)
    requires i < |holders|
    ensures Sum(Pending(holders[i := h])) + HasNumber(holders[i]) == Sum(Pending(holders)) + HasNumber(h)
  {
    SumUpdate(Pending(holders), i, HasNumber(h));
    assert Pending(holders[i := h]) == Pending(holders)[i := HasNumber(h)];
  }

  lemma BooksKept(s: State, a: Action, t: State)
    requires Shaped(s) && BooksOk(s) && Step(s, a) == Some(t)
    ensures BooksOk(t)
  {
    match a
    case Begin(i, event) =>
      RetainedUpdate(s.shards, i, t.shards[i]);
      PendingUpdate(s.holders, i, Holding(event));
      if s.shards[i].capacity > 0 && |s.shards[i].records| < s.shards[i].capacity { assert t.shards == s.shards; }
    case Number(i) => PendingUpdate(s.holders, i, Numbered(s.holders[i].event, s.next + 1, false));
    case Tally(i) => PendingUpdate(s.holders, i, t.holders[i]);
    case Finish(i) =>
      RetainedUpdate(s.shards, i, t.shards[i]);
      PendingUpdate(s.holders, i, Free);
    case _ =>
  }

  // ---- runs ----

  ghost predicate Inv(s: State) {
    RecordsOk(s) && ReadersOk(s) && BooksOk(s)
  }

  lemma InitRecords(capacity: nat, shards: nat)
    ensures RecordsOk(Init(capacity, shards))
  {
    var s := Init(capacity, shards);
    forall i | 0 <= i < |s.shards| ensures RetentionOk(s, i) && LogOk(s, i) {
      assert s.shards[i].records == [] && s.logs[i] == [];
    }
  }

  lemma InitInv(capacity: nat, shards: nat)
    ensures Inv(Init(capacity, shards))
  {
    var s := Init(capacity, shards);
    InitRecords(capacity, shards);
    SumZero(Pending(s.holders));
    SumZero(Retained(s.shards));
  }

  lemma InvKept(s: State, a: Action, t: State)
    requires Inv(s) && Step(s, a) == Some(t)
    ensures Inv(t)
  {
    BooksKept(s, a, t);
    match a
    case Begin(i, event) => BeginKeepsRecords(s, i, event); WritersKeepReaders(s, a, t);
    case Number(i) => NumberKeepsRecords(s, i); WritersKeepReaders(s, a, t);
    case Tally(i) => TallyKeepsRecords(s, i); WritersKeepReaders(s, a, t);
    case Finish(i) => FinishKeepsRecords(s, i); WritersKeepReaders(s, a, t);
    case Contend => RecordsFrame(s, t); WritersKeepReaders(s, a, t);
    case ReadBegin(id, cursor, view) => RecordsFrame(s, t); ReaderFrame(s, t, id);
    case ReadVisit(id, contended) =>
      RecordsFrame(s, t);
      if contended { SkipKeepsReader(s, s.readers[id]); } else { VisitKeepsReader(s, s.readers[id]); }
      ReaderFrame(s, t, id);
    case ReadLoad(id) =>
      RecordsFrame(s, t);
      LoadKeepsReader(s, s.readers[id]);
      ReaderFrame(s, t, id);
  }

  lemma LoadKeepsReader(s: State, r: Reader)
    requires RecordsOk(s) && ReaderOk(s, r)
    ensures ReaderOk(s, LoadStep(s, r))
  {
    var q := LoadStep(s, r);
    forall k | 0 <= k < |q.collected| ensures CollectedOk(s, q, q.collected[k]) {
      assert CollectedOk(s, r, r.collected[k]);
    }
    if q.busy == 0 {
      forall n: nat | Issued(s, n) ensures Covered(s, q, n) { assert Covered(s, r, n); }
    }
  }

  lemma WritersKeepReaders(s: State, a: Action, t: State)
    requires RecordsOk(s) && RecordsOk(t) && ReadersOk(s) && Step(s, a) == Some(t)
    requires a.Begin? || a.Number? || a.Tally? || a.Finish? || a.Contend?
    ensures ReadersOk(t)
  {
    forall id | id in t.readers ensures ReaderOk(t, t.readers[id]) {
      WriterKeepsReader(s, a, t, s.readers[id]);
    }
  }

  lemma RecordsFrame(s: State, t: State)
    requires RecordsOk(s) && t == s.(dropped := t.dropped, readers := t.readers)
    ensures RecordsOk(t)
  {
    forall i | 0 <= i < |t.shards| ensures RetentionOk(t, i) { assert RetentionOk(s, i); }
    SameNumbersKeeps(s, t);
  }

  // Only reader `id` moved, and it is fine by the old state's lights.
  lemma ReaderFrame(s: State, t: State, id: nat)
    requires Counted(s) && ReadersOk(s) && t == s.(readers := t.readers) && id in t.readers
    requires t.readers == s.readers[id := t.readers[id]] && ReaderOk(s, t.readers[id])
    ensures ReadersOk(t)
  {
    forall i | i in t.readers ensures ReaderOk(t, t.readers[i]) {
      var r := t.readers[i];
      assert ReaderOk(s, r);
      assert forall k :: 0 <= k < |r.collected| ==> CollectedOk(s, r, r.collected[k]) && CollectedOk(t, r, r.collected[k]);
      if r.busy == 0 {
        forall n: nat | Issued(t, n) ensures Covered(t, r, n) { assert Covered(s, r, n); }
      }
    }
  }
}
