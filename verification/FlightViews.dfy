// What the two views of the flight recorder show, over every interleaving, and what
// one undisturbed emit leaves behind.

module FlightViews {
  import opened Basics
  import opened Facade
  import opened FlightRecorder
  import opened FlightProtocol
  import opened FlightTheorems

  // Every record a read collects is what the reader's view shows of the record
  // accepted under its number.
  lemma ReadShowsAccepted(capacity: nat, shards: nat, acts: seq<Action>, s: State, id: nat, k: nat)
    requires Replay(capacity, shards, acts) == Some(s)
    requires id in s.readers && k < |FlightTheorems.Result(s.readers[id]).records|
    ensures var r := FlightTheorems.Result(s.readers[id]).records[k];
      && Counted(s) && Issued(s, r.sequence)
      && Shows(r, FlightRecord(r.sequence, EventOf(s, r.sequence)), s.readers[id].view)
  {
    ReadIsSound(capacity, shards, acts, s, id, k);
    var n := FlightTheorems.Result(s.readers[id]).records[k].sequence;
    ProjectionShows(FlightRecord(n, EventOf(s, n)), s.readers[id].view);
  }

  // Nothing secret is ever read, and nothing local or written as free text is read
  // remotely.
  lemma RemoteReadsAreSafe(capacity: nat, shards: nat, acts: seq<Action>, s: State, id: nat, k: nat)
    requires Replay(capacity, shards, acts) == Some(s)
    requires id in s.readers && k < |FlightTheorems.Result(s.readers[id]).records|
    ensures var r := FlightTheorems.Result(s.readers[id]).records[k];
      && (forall f :: f in r.event.fields ==> f.privacy != Secret)
      && (s.readers[id].view == Remote ==>
            r.event.message.None? && forall f :: f in r.event.fields ==> f.privacy == SupportSafe)
  {
    ReadShowsAccepted(capacity, shards, acts, s, id, k);
    var r := FlightTheorems.Result(s.readers[id]).records[k];
    ShownIsSafe(r, FlightRecord(r.sequence, EventOf(s, r.sequence)), s.readers[id].view);
  }

  lemma ShownIsSafe(r: FlightRecord, record: FlightRecord, view: RecorderView)
    requires Shows(r, record, view)
    ensures forall f :: f in r.event.fields ==> f.privacy != Secret
    ensures view == Remote ==> r.event.message.None? && forall f :: f in r.event.fields ==> f.privacy == SupportSafe
  {
    forall f | f in r.event.fields ensures f.privacy != Secret && (view == Remote ==> f.privacy == SupportSafe) {
      SiftMembers(record.event.fields, if view == Remote then IsSupportSafe else IsPublic, f);
    }
  }

  // A read's count of omitted fields is the sum over the records it returns.
  lemma {:induction false} OmittedIsSum(records: seq<FlightRecord>)
    ensures OmittedTotal(records)
      == Sum(seq(|records|, i requires 0 <= i < |records| => records[i].event.omittedFields))
  {
    if records != [] {
      var n := |records| - 1;
      OmittedIsSum(records[..n]);
      var counts := seq(|records|, i requires 0 <= i < |records| => records[i].event.omittedFields);
      assert counts[..n] == seq(|records[..n]|, i requires 0 <= i < |records[..n]| => records[..n][i].event.omittedFields);
    }
  }

  // ---- the in-place recorder writes the same way ----

  // The steps of a whole emit on one shard.
  function EmitActions(shard: nat, event: OwnedEvent): seq<Action> {
    [Begin(shard, event), Number(shard), Tally(shard), Finish(shard)]
  }

  lemma TwoSteps(
      capacity: nat, shards: nat, acts: seq<Action>, s: State, a: Action, t: State, b: Action, u: State)
    requires Replay(capacity, shards, acts) == Some(s)
    requires Step(s, a) == Some(t) && Shaped(t) && Step(t, b) == Some(u)
    ensures Replay(capacity, shards, acts + [a, b]) == Some(u)
  {
    ReplayOne(capacity, shards, acts, a);
    ReplayOne(capacity, shards, acts + [a], b);
    assert acts + [a, b] == acts + [a] + [b];
  }

  // What a whole emit makes of a shard with room for at least one record.
  predicate Stored(s: State, i: nat, event: OwnedEvent, t: State)
    requires Shaped(s) && i < |s.shards| && s.shards[i].capacity > 0
  {
    && t.shards == s.shards[i := Append(s.shards[i], FlightRecord(s.next + 1, event))]
    && t.holders == s.holders && t.readers == s.readers
    && t.next == s.next + 1 && t.accepted == s.accepted + 1 && t.dropped == s.dropped
    && t.overwritten == s.overwritten + (if |s.shards[i].records| == s.shards[i].capacity then 1 else 0)
    && t.truncated == s.truncated + event.truncatedFields
  }

  lemma EmitSteps(s: State, i: nat, event: OwnedEvent)
    requires Shaped(s) && i < |s.shards| && s.shards[i].capacity > 0 && s.holders[i].Free?
    ensures var a := BeginStep(s, i, event);
      && Shaped(a) && a.holders[i].Holding?
      && var b := NumberStep(a, i);
         && Shaped(b) && b.holders[i].Numbered? && !b.holders[i].tallied
         && var c := TallyStep(b, i);
            && Shaped(c) && c.holders[i].Numbered? && c.holders[i].tallied
            && Stored(s, i, event, FinishStep(c, i))
  {
    var d := FinishStep(TallyStep(NumberStep(BeginStep(s, i, event), i), i), i);
    assert d.shards == s.shards[i := Append(s.shards[i], FlightRecord(s.next + 1, event))];
    assert d.holders == s.holders;
  }

  // An emit whose steps nobody comes between is a run of the protocol and leaves what
  // `FlightRecorder.Emit` leaves.
  lemma UndisturbedEmit(capacity: nat, shards: nat, acts: seq<Action>, s: State, i: nat, event: OwnedEvent)
    requires Replay(capacity, shards, acts) == Some(s)
    requires i < |s.shards| && s.holders[i].Free? && s.shards[i].capacity > 0
    ensures var t := Replay(capacity, shards, acts + EmitActions(i, event));
      t.Some? && Stored(s, i, event, t.value)
  {
    EmitSteps(s, i, event);
    var a := BeginStep(s, i, event);
    var b := NumberStep(a, i);
    var c := TallyStep(b, i);
    TwoSteps(capacity, shards, acts, s, Begin(i, event), a, Number(i), b);
    TwoSteps(capacity, shards, acts + [Begin(i, event), Number(i)], b, Tally(i), c, Finish(i), FinishStep(c, i));
    assert acts + EmitActions(i, event) == acts + [Begin(i, event), Number(i)] + [Tally(i), Finish(i)];
  }

  // One that finds no room, or its shard in other hands, only counts as dropped.
  lemma DroppedEmit(capacity: nat, shards: nat, acts: seq<Action>, s: State, i: nat, event: OwnedEvent)
    requires Replay(capacity, shards, acts) == Some(s)
    requires i < |s.shards| && s.holders[i].Free? && s.shards[i].capacity == 0
    ensures Replay(capacity, shards, acts + [Begin(i, event)]) == Some(s.(dropped := s.dropped + 1))
    ensures Replay(capacity, shards, acts + [Contend]) == Some(s.(dropped := s.dropped + 1))
  {
    ReplayOne(capacity, shards, acts, Begin(i, event));
    ReplayOne(capacity, shards, acts, Contend);
  }
}
