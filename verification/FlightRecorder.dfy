// The flight recorder's data and its operations in place: how capacity is split
// over shards, how a record is retained, projected, read back and sorted.

module FlightRecorder {
  import opened Basics
  import opened Utf8
  import opened Facade

  datatype RecorderView = Local | Remote

  datatype FlightRecord = FlightRecord(sequence: nat, event: OwnedEvent)

  datatype Shard = Shard(capacity: nat, records: seq<FlightRecord>)

  // The recorder's running totals, as a read reports them.
  datatype Totals = Totals(dropped: nat, overwritten: nat, truncatedFields: nat)

  datatype FlightRead = FlightRead(
    requestedCursor: nat,
    nextCursor: nat,
    records: seq<FlightRecord>,
    totals: Totals,
    omittedFields: nat,
    busyShards: nat)

  // ---- capacity ----

  function ShardCount(capacity: nat, shards: nat): (n: nat)
    ensures n > 0
  {
    if capacity == 0 then 1 else Min(Max(shards, 1), capacity)
  }

  function ShardCapacity(capacity: nat, count: nat, index: nat): nat
    requires count > 0
  {
    capacity / count + (if index < capacity % count then 1 else 0)
  }

  function Total(shards: seq<Shard>): nat {
    if shards == [] then 0 else Total(shards[..|shards| - 1]) + shards[|shards| - 1].capacity
  }

  // The first `n` shards get n equal parts and the remainder one each.
  lemma {:induction false} TotalOfSplit(capacity: nat, count: nat, shards: seq<Shard>)
    requires count > 0 && |shards| <= count
    requires forall i :: 0 <= i < |shards| ==> shards[i].capacity == ShardCapacity(capacity, count, i)
    ensures Total(shards) == |shards| * (capacity / count) + Min(|shards|, capacity % count)
  {
    if shards != [] {
      TotalOfSplit(capacity, count, shards[..|shards| - 1]);
      assert |shards| * (capacity / count) == (|shards| - 1) * (capacity / count) + capacity / count;
    }
  }

  // Shard capacities add up to the capacity, differ by at most one, and none is
  // wasted: each is positive when the capacity is.
  lemma SplitIsExact(capacity: nat, shards: nat, split: seq<Shard>)
    requires |split| == ShardCount(capacity, shards)
    requires forall i :: 0 <= i < |split| ==> split[i].capacity == ShardCapacity(capacity, |split|, i)
    ensures Total(split) == capacity
    ensures forall i, j :: 0 <= i < |split| && 0 <= j < |split| ==> split[i].capacity <= split[j].capacity + 1
    ensures capacity > 0 ==> forall i :: 0 <= i < |split| ==> split[i].capacity > 0
  {
    TotalOfSplit(capacity, |split|, split);
    assert capacity == |split| * (capacity / |split|) + capacity % |split|;
    if capacity > 0 {
      assert |split| <= capacity;
      assert |split| * (capacity / |split|) > 0 by {
        assert capacity % |split| < |split|;
      }
    }
  }

  // ---- projection ----

  predicate Visible(privacy: Privacy, view: RecorderView) {
    privacy != Secret && (view == Local || privacy == SupportSafe)
  }

  // The fields a view keeps, in order.
  function Retain(fields: seq<OwnedField>, view: RecorderView): (kept: seq<OwnedField>)
    ensures |kept| <= |fields|
    ensures forall f :: f in kept <==> f in fields && Visible(f.privacy, view)
  {
    if fields == [] then []
    else
      var earlier := Retain(fields[..|fields| - 1], view);
      if Visible(fields[|fields| - 1].privacy, view) then earlier + [fields[|fields| - 1]] else earlier
  }

  function ProjectRecord(record: FlightRecord, view: RecorderView): FlightRecord {
    var kept := Retain(record.event.fields, view);
    record.(event := record.event.(
      fields := kept,
      omittedFields := record.event.omittedFields + (|record.event.fields| - |kept|),
      message := if view == Remote then None else record.event.message))
  }

  predicate IsSupportSafe(f: OwnedField) {
    f.privacy == SupportSafe
  }

  predicate IsPublic(f: OwnedField) {
    f.privacy == SupportSafe || f.privacy == LocalOnly
  }

  lemma {:induction false} RetainMeans(fields: seq<OwnedField>)
    ensures Retain(fields, Remote) == Sift(fields, IsSupportSafe)
    ensures Retain(fields, Local) == Sift(fields, IsPublic)
  {
    if fields != [] {
      RetainMeans(fields[..|fields| - 1]);
    }
  }

  // What a view shows of a record: remotely the support-safe fields and no message,
  // locally all but the secret fields and the message, in order either way.
  predicate Shows(shown: FlightRecord, record: FlightRecord, view: RecorderView) {
    && shown.sequence == record.sequence
    && shown.event.metadata == record.event.metadata && shown.event.context == record.event.context
    && shown.event.truncatedFields == record.event.truncatedFields
    && shown.event.omittedFields == record.event.omittedFields + |record.event.fields| - |shown.event.fields|
    && match view
       case Remote => shown.event.message.None? && shown.event.fields == Sift(record.event.fields, IsSupportSafe)
       case Local => shown.event.message == record.event.message && shown.event.fields == Sift(record.event.fields, IsPublic)
  }

  lemma ProjectionShows(record: FlightRecord, view: RecorderView)
    ensures Shows(ProjectRecord(record, view), record, view)
  {
    RetainMeans(record.event.fields);
  }

  // `Vec::retain` with the view's test.
  method RetainFields(fields: seq<OwnedField>, view: RecorderView) returns (kept: seq<OwnedField>)
    ensures kept == Retain(fields, view)
  {
    kept := [];
    for i := 0 to |fields|
      invariant kept == Retain(fields[..i], view)
    {
      assert fields[..i + 1][..i] == fields[..i];
      if fields[i].privacy != Secret && (view == Local || fields[i].privacy == SupportSafe) {
        kept := kept + [fields[i]];
      }
    }
    assert fields[..|fields|] == fields;
  }

  method Project(record: FlightRecord, view: RecorderView) returns (projected: FlightRecord)
    ensures projected == ProjectRecord(record, view) && Shows(projected, record, view)
  {
    var event := record.event;
    var before := |event.fields|;
    var kept := RetainFields(event.fields, view);
    event := event.(fields := kept, omittedFields := event.omittedFields + (before - |kept|));
    if view == Remote {
      event := event.(message := None);
    }
    projected := FlightRecord(record.sequence, event);
    ProjectionShows(record, view);
  }

  lemma {:induction false} RetainTwice(fields: seq<OwnedField>, outer: RecorderView, inner: RecorderView)
    ensures Retain(Retain(fields, inner), outer) == Retain(fields, if inner == Remote then Remote else outer)
  {
    if fields != [] {
      var last := fields[|fields| - 1];
      RetainTwice(fields[..|fields| - 1], outer, inner);
      if Visible(last.privacy, inner) {
        assert Retain(fields, inner)[..|Retain(fields, inner)| - 1] == Retain(fields[..|fields| - 1], inner);
      }
    }
  }

  // Projecting never loses count of a field, and a narrower view composes.
  lemma ProjectionAccounts(record: FlightRecord, outer: RecorderView, inner: RecorderView)
    ensures ProjectRecord(record, inner).event.omittedFields + |ProjectRecord(record, inner).event.fields|
      == record.event.omittedFields + |record.event.fields|
    ensures ProjectRecord(ProjectRecord(record, inner), outer)
      == ProjectRecord(record, if inner == Remote then Remote else outer)
  {
    RetainTwice(record.event.fields, outer, inner);
  }

  // ---- reading one shard ----

  predicate InWindow(record: FlightRecord, cursor: nat, watermark: nat) {
    cursor < record.sequence <= watermark
  }

  // The shard's records inside the window, projected, in order.
  function Select(records: seq<FlightRecord>, cursor: nat, watermark: nat, view: RecorderView): seq<FlightRecord> {
    if records == [] then []
    else
      var earlier := Select(records[..|records| - 1], cursor, watermark, view);
      var last := records[|records| - 1];
      if InWindow(last, cursor, watermark) then earlier + [ProjectRecord(last, view)] else earlier
  }

  predicate IsSelected(r: FlightRecord, records: seq<FlightRecord>, cursor: nat, watermark: nat, view: RecorderView) {
    exists k :: 0 <= k < |records| && InWindow(records[k], cursor, watermark) && ProjectRecord(records[k], view) == r
  }

  lemma {:induction false} SelectExact(
      records: seq<FlightRecord>, cursor: nat, watermark: nat, view: RecorderView, r: FlightRecord)
    ensures r in Select(records, cursor, watermark, view) <==> IsSelected(r, records, cursor, watermark, view)
  {
    if records != [] {
      var n := |records| - 1;
      SelectExact(records[..n], cursor, watermark, view, r);
      if IsSelected(r, records[..n], cursor, watermark, view) {
        var k :| 0 <= k < n && InWindow(records[..n][k], cursor, watermark) && ProjectRecord(records[..n][k], view) == r;
        assert InWindow(records[k], cursor, watermark) && ProjectRecord(records[k], view) == r;
      }
      if IsSelected(r, records, cursor, watermark, view) {
        var k :| 0 <= k <= n && InWindow(records[k], cursor, watermark) && ProjectRecord(records[k], view) == r;
        if k < n { assert records[..n][k] == records[k]; }
      }
    }
  }

  // ---- sorting ----

  predicate Ascending(records: seq<FlightRecord>) {
    forall i, j :: 0 <= i < j < |records| ==> records[i].sequence < records[j].sequence
  }

  function Insert(record: FlightRecord, sorted: seq<FlightRecord>): seq<FlightRecord> {
    if sorted == [] || record.sequence <= sorted[0].sequence then [record] + sorted
    else [sorted[0]] + Insert(record, sorted[1..])
  }

  // The records ordered by sequence.
  function Sorted(records: seq<FlightRecord>): seq<FlightRecord> {
    if records == [] then [] else Insert(records[0], Sorted(records[1..]))
  }

  predicate DistinctSequences(records: seq<FlightRecord>) {
    forall i, j :: 0 <= i < j < |records| ==> records[i].sequence != records[j].sequence
  }

  lemma {:induction false} InsertKeepsElements(record: FlightRecord, sorted: seq<FlightRecord>)
    ensures multiset(Insert(record, sorted)) == multiset(sorted) + multiset{record}
  {
    if sorted != [] && record.sequence > sorted[0].sequence {
      InsertKeepsElements(record, sorted[1..]);
      assert sorted == [sorted[0]] + sorted[1..];
    }
  }

  lemma {:induction false} InsertSorts(record: FlightRecord, sorted: seq<FlightRecord>)
    requires Ascending(sorted) && forall i :: 0 <= i < |sorted| ==> sorted[i].sequence != record.sequence
    ensures Ascending(Insert(record, sorted))
  {
    if sorted != [] && record.sequence > sorted[0].sequence {
      InsertSorts(record, sorted[1..]);
      InsertKeepsElements(record, sorted[1..]);
      var rest := Insert(record, sorted[1..]);
      forall j | 0 <= j < |rest| ensures sorted[0].sequence < rest[j].sequence {
        assert rest[j] in multiset(rest);
        assert rest[j] == record || rest[j] in sorted[1..];
      }
    }
  }

  lemma {:induction false} SortedIsAscending(records: seq<FlightRecord>)
    requires DistinctSequences(records)
    ensures Ascending(Sorted(records)) && multiset(Sorted(records)) == multiset(records)
  {
    if records != [] {
      SortedIsAscending(records[1..]);
      var rest := Sorted(records[1..]);
      forall i | 0 <= i < |rest| ensures rest[i].sequence != records[0].sequence {
        assert rest[i] in multiset(records[1..]);
      }
      InsertSorts(records[0], rest);
      InsertKeepsElements(records[0], rest);
      assert records == [records[0]] + records[1..];
    }
  }

  lemma SortedKeepsElements(records: seq<FlightRecord>, r: FlightRecord)
    requires DistinctSequences(records)
    ensures r in Sorted(records) <==> r in records
    ensures |Sorted(records)| == |records|
  {
    SortedIsAscending(records);
    assert r in multiset(Sorted(records)) <==> r in multiset(records);
    assert |multiset(Sorted(records))| == |multiset(records)|;
  }

  // ---- the recorder, in place ----

  // One shard after a record is appended, evicting the oldest of a full shard.
  function Append(shard: Shard, record: FlightRecord): Shard
    requires shard.capacity > 0
  {
    shard.(records :=
      (if |shard.records| == shard.capacity then shard.records[1..] else shard.records) + [record])
  }

  predicate NotSecret(f: ProjectedField) {
    f.privacy != Secret
  }

  // Secrets are dropped, and counted as omitted, before anything is retained.
  function PublicFields(fields: seq<ProjectedField>): (kept: seq<ProjectedField>)
    ensures |kept| <= |fields|
    ensures forall f :: f in kept <==> f in fields && f.privacy != Secret
    ensures kept == Sift(fields, NotSecret)
  {
    if fields == [] then []
    else
      var last := fields[|fields| - 1];
      var earlier := PublicFields(fields[..|fields| - 1]);
      if last.privacy != Secret then earlier + [last] else earlier
  }

  function WithoutSecrets(event: ProjectedEvent): ProjectedEvent {
    var kept := PublicFields(event.fields);
    event.(fields := kept, omittedFields := event.omittedFields + (|event.fields| - |kept|))
  }

  method StripSecrets(event: ProjectedEvent) returns (trimmed: ProjectedEvent)
    ensures trimmed == WithoutSecrets(event)
  {
    var kept: seq<ProjectedField> := [];
    for i := 0 to |event.fields|
      invariant kept == PublicFields(event.fields[..i])
    {
      assert event.fields[..i + 1][..i] == event.fields[..i];
      if event.fields[i].privacy != Secret {
        kept := kept + [event.fields[i]];
      }
    }
    assert event.fields[..|event.fields|] == event.fields;
    trimmed := event.(fields := kept, omittedFields := event.omittedFields + (|event.fields| - |kept|));
  }

  // No secret survives ingestion.
  lemma NoSecretRetained(event: ProjectedEvent, limit: nat, f: OwnedField)
    requires f in OwnedCopy(WithoutSecrets(event), limit).fields
    ensures f.privacy != Secret
  {
    var kept := PublicFields(event.fields);
    var i :| 0 <= i < |kept| && f == OwnField(kept[i], limit);
    assert kept[i] in kept;
  }

  // `record` is what is kept of an event: all of it but the secret fields, which are
  // counted as left out.
  ghost predicate IngestedAs(event: ProjectedEvent, limit: nat, sequence: nat, record: FlightRecord) {
    var public := Sift(event.fields, NotSecret);
    && record.sequence == sequence
    && OwnsEvent(record.event,
                 event.(fields := public, omittedFields := event.omittedFields + |event.fields| - |public|), limit)
  }

  lemma IngestionMeans(event: ProjectedEvent, limit: nat, sequence: nat)
    ensures IngestedAs(event, limit, sequence, FlightRecord(sequence, OwnedCopy(WithoutSecrets(event), limit)))
  {
    OwnedCopyOwns(WithoutSecrets(event), limit);
  }

  // What the reachable shards hold inside the window, shard by shard.
  function Gather(
      shards: seq<Shard>, contended: set<nat>, cursor: nat, watermark: nat, view: RecorderView): seq<FlightRecord>
  {
    if shards == [] then []
    else
      var n := |shards| - 1;
      Gather(shards[..n], contended, cursor, watermark, view)
      + (if n in contended then [] else Select(shards[n].records, cursor, watermark, view))
  }

  function OmittedTotal(records: seq<FlightRecord>): nat {
    if records == [] then 0
    else OmittedTotal(records[..|records| - 1]) + records[|records| - 1].event.omittedFields
  }

  // `tail`: the newest part of a read. The totals stay those of the whole read.
  function Newest(records: seq<FlightRecord>, limit: nat): seq<FlightRecord> {
    if |records| > limit then records[|records| - limit..] else records
  }

  function CountBusy(count: nat, contended: set<nat>): nat {
    if count == 0 then 0 else CountBusy(count - 1, contended) + (if count - 1 in contended then 1 else 0)
  }

  function ReadOf(
      shards: seq<Shard>, next: nat, totals: Totals, contended: set<nat>, cursor: nat, view: RecorderView): FlightRead
  {
    var busy := CountBusy(|shards|, contended);
    var records := Sorted(Gather(shards, contended, cursor, next, view));
    FlightRead(cursor, if busy == 0 then Max(next, cursor) else cursor, records, totals, OmittedTotal(records), busy)
  }

  // ---- what a read comes to ----

  predicate InOrder(records: seq<FlightRecord>) {
    forall i, j :: 0 <= i < j < |records| ==> records[i].sequence <= records[j].sequence
  }

  lemma {:induction false} InsertOrders(record: FlightRecord, sorted: seq<FlightRecord>)
    requires InOrder(sorted)
    ensures InOrder(Insert(record, sorted))
  {
    if sorted != [] && record.sequence > sorted[0].sequence {
      InsertOrders(record, sorted[1..]);
      InsertKeepsElements(record, sorted[1..]);
      var rest := Insert(record, sorted[1..]);
      forall j | 0 <= j < |rest| ensures sorted[0].sequence <= rest[j].sequence {
        assert rest[j] in multiset(rest);
        assert rest[j] == record || rest[j] in sorted[1..];
      }
    }
  }

  lemma {:induction false} SortedInOrder(records: seq<FlightRecord>)
    ensures InOrder(Sorted(records)) && multiset(Sorted(records)) == multiset(records)
  {
    if records != [] {
      SortedInOrder(records[1..]);
      InsertOrders(records[0], Sorted(records[1..]));
      InsertKeepsElements(records[0], Sorted(records[1..]));
      assert records == [records[0]] + records[1..];
    }
  }

  // Record `k` of shard `i` is one a read gets to see.
  predicate IsMet(shards: seq<Shard>, contended: set<nat>, cursor: nat, watermark: nat, i: nat, k: nat) {
    && i < |shards| && i !in contended && k < |shards[i].records|
    && cursor < shards[i].records[k].sequence <= watermark
  }

  lemma {:induction false} GatherHas(
      shards: seq<Shard>, contended: set<nat>, cursor: nat, watermark: nat, view: RecorderView, i: nat, k: nat)
    requires IsMet(shards, contended, cursor, watermark, i, k)
    ensures ProjectRecord(shards[i].records[k], view) in Gather(shards, contended, cursor, watermark, view)
  {
    var n := |shards| - 1;
    if i == n {
      assert InWindow(shards[n].records[k], cursor, watermark);
      SelectExact(shards[n].records, cursor, watermark, view, ProjectRecord(shards[i].records[k], view));
    } else {
      GatherHas(shards[..n], contended, cursor, watermark, view, i, k);
    }
  }

  lemma {:induction false} GatheredFrom(
      shards: seq<Shard>, contended: set<nat>, cursor: nat, watermark: nat, view: RecorderView, r: FlightRecord)
    returns (i: nat, k: nat)
    requires r in Gather(shards, contended, cursor, watermark, view)
    ensures IsMet(shards, contended, cursor, watermark, i, k) && r == ProjectRecord(shards[i].records[k], view)
  {
    var n := |shards| - 1;
    if r in Gather(shards[..n], contended, cursor, watermark, view) {
      i, k := GatheredFrom(shards[..n], contended, cursor, watermark, view, r);
    } else {
      SelectExact(shards[n].records, cursor, watermark, view, r);
      i := n;
      k :| 0 <= k < |shards[n].records| && InWindow(shards[n].records[k], cursor, watermark)
        && ProjectRecord(shards[n].records[k], view) == r;
    }
  }

  // A read shows what it meets, nothing else, in number order.
  ghost predicate ReadShows(
      records: seq<FlightRecord>, shards: seq<Shard>, contended: set<nat>, cursor: nat, watermark: nat, view: RecorderView)
  {
    && InOrder(records)
    && (forall r :: r in records ==>
          exists i: nat, k: nat :: IsMet(shards, contended, cursor, watermark, i, k) && Shows(r, shards[i].records[k], view))
    && (forall i: nat, k: nat :: IsMet(shards, contended, cursor, watermark, i, k) ==>
          exists r :: r in records && Shows(r, shards[i].records[k], view))
  }

  lemma ReadOfShows(
      shards: seq<Shard>, next: nat, totals: Totals, contended: set<nat>, cursor: nat, view: RecorderView)
    ensures ReadShows(ReadOf(shards, next, totals, contended, cursor, view).records, shards, contended, cursor, next, view)
  {
    var gathered := Gather(shards, contended, cursor, next, view);
    var records := Sorted(gathered);
    SortedInOrder(gathered);
    forall r | r in records
      ensures exists i: nat, k: nat :: IsMet(shards, contended, cursor, next, i, k) && Shows(r, shards[i].records[k], view)
    {
      assert r in multiset(gathered);
      var i, k := GatheredFrom(shards, contended, cursor, next, view, r);
      ProjectionShows(shards[i].records[k], view);
    }
    forall i: nat, k: nat | IsMet(shards, contended, cursor, next, i, k)
      ensures exists r :: r in records && Shows(r, shards[i].records[k], view)
    {
      GatherHas(shards, contended, cursor, next, view, i, k);
      ProjectionShows(shards[i].records[k], view);
      assert ProjectRecord(shards[i].records[k], view) in multiset(records);
    }
  }

  method SumOmitted(records: seq<FlightRecord>) returns (total: nat)
    ensures total == OmittedTotal(records)
  {
    total := 0;
    for i := 0 to |records|
      invariant total == OmittedTotal(records[..i])
    {
      assert records[..i + 1][..i] == records[..i];
      total := total + records[i].event.omittedFields;
    }
    assert records[..|records|] == records;
  }

  class FlightRecorder {
    const maxStringBytes: nat
    var next: nat
    var shards: seq<Shard>
    var accepted: nat
    var dropped: nat
    var overwritten: nat
    var truncatedFields: nat

    function Stats(): Totals
      reads this
    {
      Totals(dropped, overwritten, truncatedFields)
    }

    ghost predicate Valid()
      reads this
    {
      && |shards| > 0
      && forall i :: 0 <= i < |shards| ==> |shards[i].records| <= shards[i].capacity
    }

    constructor (capacity: nat, maxStringBytes: nat, shardCount: nat)
      ensures Valid() && next == accepted == dropped == overwritten == truncatedFields == 0
      ensures |shards| == ShardCount(capacity, shardCount)
      ensures forall i :: 0 <= i < |shards| ==> shards[i] == Shard(ShardCapacity(capacity, |shards|, i), [])
      ensures Total(shards) == capacity
    {
      this.maxStringBytes := maxStringBytes;
      next, accepted, dropped, overwritten, truncatedFields := 0, 0, 0, 0, 0;
      var count := ShardCount(capacity, shardCount);
      var base := capacity / count;
      var remainder := capacity % count;
      var list: seq<Shard> := [];
      for index := 0 to count
        invariant |list| == index
        invariant forall i :: 0 <= i < index ==> list[i] == Shard(ShardCapacity(capacity, count, i), [])
      {
        list := list + [Shard(base + (if index < remainder then 1 else 0), [])];
      }
      SplitIsExact(capacity, shardCount, list);
      shards := list;
    }

    // `emit` on the calling thread's shard. Secrets are removed before anything is
    // retained; a contended or empty-capacity shard drops the record.
    method Emit(event: ProjectedEvent, index: nat, contended: bool)
      requires Valid() && index < |shards|
      modifies this
      ensures Valid() && |shards| == |old(shards)|
      ensures contended || old(shards)[index].capacity == 0 ==>
        (&& shards == old(shards) && next == old(next) && accepted == old(accepted) && dropped == old(dropped) + 1
         && overwritten == old(overwritten) && truncatedFields == old(truncatedFields))
      ensures !contended && old(shards)[index].capacity > 0 ==>
        (&& next == old(next) + 1 && accepted == old(accepted) + 1 && dropped == old(dropped)
         && overwritten == old(overwritten)
              + (if |old(shards)[index].records| == old(shards)[index].capacity then 1 else 0)
         && truncatedFields == old(truncatedFields) + OwnedCopy(WithoutSecrets(event), maxStringBytes).truncatedFields
         && shards == old(shards)[index :=
              Append(old(shards)[index], FlightRecord(next, OwnedCopy(WithoutSecrets(event), maxStringBytes)))])
      ensures !contended && old(shards)[index].capacity > 0 ==>
        var was := old(shards)[index].records;
        && |shards[index].records| > 0 && shards[index].capacity == old(shards)[index].capacity
        && shards[index].records[..|shards[index].records| - 1]
             == (if |was| == old(shards)[index].capacity then was[1..] else was)
    {
      var trimmed := StripSecrets(event);
      var owned := CopyFrom(trimmed, maxStringBytes);
      var shard := shards[index];
      if contended || shard.capacity == 0 {
        dropped := dropped + 1;
        return;
      }
      if |shard.records| == shard.capacity {
        shard := shard.(records := shard.records[1..]);
        overwritten := overwritten + 1;
      }
      next := next + 1;
      truncatedFields := truncatedFields + owned.truncatedFields;
      shards := shards[index := shard.(records := shard.records + [FlightRecord(next, owned)])];
      accepted := accepted + 1;
    }

    method ReadSince(cursor: nat, view: RecorderView, contended: set<nat>) returns (read: FlightRead)
      requires Valid()
      ensures read == ReadOf(shards, next, Stats(), contended, cursor, view)
      ensures ReadShows(read.records, shards, contended, cursor, next, view)
    {
      var watermark := next;
      var records: seq<FlightRecord> := [];
      var busy := 0;
      for i := 0 to |shards|
        invariant records == Gather(shards[..i], contended, cursor, watermark, view)
        invariant busy == CountBusy(i, contended)
      {
        assert shards[..i + 1][..i] == shards[..i];
        if i in contended {
          busy := busy + 1;
        } else {
          records := records + Select(shards[i].records, cursor, watermark, view);
        }
      }
      assert shards[..|shards|] == shards;
      records := Sorted(records);
      var omitted := SumOmitted(records);
      ReadOfShows(shards, next, Stats(), contended, cursor, view);
      read := FlightRead(cursor, if busy == 0 then Max(watermark, cursor) else cursor, records,
                         Totals(dropped, overwritten, truncatedFields), omitted, busy);
    }

    method Tail(limit: nat, view: RecorderView, contended: set<nat>) returns (read: FlightRead)
      requires Valid()
      ensures var whole := ReadOf(shards, next, Stats(), contended, 0, view);
        read == whole.(records := Newest(whole.records, limit))
    {
      read := ReadSince(0, view, contended);
      if |read.records| > limit {
        read := read.(records := read.records[|read.records| - limit..]);
      }
    }
  }
}
