// A call site evaluates only the fields some view wants. Every sink must be handed
// exactly what it would have got from evaluating all of them.

module LazyEvaluation {
  import opened Basics
  import opened Facade
  import opened Interest
  import opened Lineage
  import opened Runtime

  // What the call-site macro materializes: the value where the interest wants the
  // field, nothing elsewhere, in schema order.
  function Materialize(schema: seq<FieldMetadata>, values: seq<Value>, interest: Interest): (out: seq<Option<FieldRef>>)
    requires |schema| == |values|
    ensures |out| == |schema|
  {
    if schema == [] then []
    else
      var n := |schema| - 1;
      Materialize(schema[..n], values[..n], interest)
      + [if interest.Wants(schema[n].privacy, schema[n].detail) then Some(FieldRef(schema[n], values[n])) else None]
  }

  const EVERYTHING := Interest(true, true, true, true, true, true, true)

  function Structured(metadata: Metadata, context: ContextToken, values: seq<Value>, interest: Interest): EventRef
    requires |metadata.fields| == |values|
  {
    EventRef(metadata, context, Materialize(metadata.fields, values, interest), None)
  }

  // The refined mask a call site evaluates its fields under.
  function Refine(
      c: Config, contexts: Contexts, metadata: Metadata, context: ContextToken, cached: Interest, now: nat): Interest
    requires WellFormed(contexts)
  {
    if cached.contextual then RefinedMask(c, contexts, metadata, context, now) else cached
  }

  // The structured pipeline: cached mask, refinement, evaluation, projection.
  function LazyDeliveries(
      c: Config, contexts: Contexts, metadata: Metadata, context: ContextToken, values: seq<Value>,
      cached: Interest, now: nat): seq<Delivery>
    requires WellFormed(contexts) && |metadata.fields| == |values|
  {
    var interest := Refine(c, contexts, metadata, context, cached, now);
    if !cached.Any() || !interest.Any() then []
    else Deliveries(c.sinks, contexts, Structured(metadata, context, values, interest), c.here)
  }

  function EagerDeliveries(
      c: Config, contexts: Contexts, metadata: Metadata, context: ContextToken, values: seq<Value>): seq<Delivery>
    requires WellFormed(contexts) && |metadata.fields| == |values|
  {
    Deliveries(c.sinks, contexts, Structured(metadata, context, values, EVERYTHING), c.here)
  }

  // ---- one sink ----

  predicate Includes(a: Interest, b: Interest) {
    a.Union(b) == a
  }

  lemma IncludesWants(a: Interest, b: Interest, privacy: Privacy, detail: Detail)
    requires Includes(a, b) && b.Wants(privacy, detail)
    ensures a.Wants(privacy, detail)
  {
    UnionWants(a, b, privacy, detail);
  }

  // A mask that includes a sink's interest is as good as evaluating everything, as
  // far as that sink can tell.
  lemma {:induction false} ProjectionIgnoresTheRest(
      schema: seq<FieldMetadata>, values: seq<Value>, interest: Interest, capability: Capability, level: DetailLevel)
    requires |schema| == |values| && Includes(interest, SinkInterest(capability, level))
    ensures ProjectFields(Materialize(schema, values, interest), capability, level)
      == ProjectFields(Materialize(schema, values, EVERYTHING), capability, level)
  {
    if schema != [] {
      var n := |schema| - 1;
      ProjectionIgnoresTheRest(schema[..n], values[..n], interest, capability, level);
      SinkInterestExact(capability, level, schema[n]);
      if Authorized(capability, level, schema[n]) {
        IncludesWants(interest, SinkInterest(capability, level), schema[n].privacy, schema[n].detail);
      }
      MaterializeLast(schema, values, interest);
      MaterializeLast(schema, values, EVERYTHING);
    }
  }

  lemma MaterializeLast(schema: seq<FieldMetadata>, values: seq<Value>, interest: Interest)
    requires |schema| == |values| && schema != []
    ensures var out, n := Materialize(schema, values, interest), |schema| - 1;
      && out[..|out| - 1] == Materialize(schema[..n], values[..n], interest)
      && out[|out| - 1] == if interest.Wants(schema[n].privacy, schema[n].detail)
                           then Some(FieldRef(schema[n], values[n])) else None
  {
  }

  // ---- every receiving sink is covered by the refined mask ----

  lemma {:induction false} RefinedCoversSinks(
      sinks: seq<SinkRegistration>, contexts: Contexts, metadata: Metadata, context: ContextToken, here: Target, i: nat)
    requires WellFormed(contexts) && i < |sinks|
    requires MatchesStatic(sinks[i].filter, metadata, here) && MatchesContext(sinks[i].filter, contexts, context)
    ensures Includes(SinksRefined(sinks, contexts, metadata, context, here), SinkInterest(sinks[i].capability, sinks[i].detail))
  {
    var n := |sinks| - 1;
    if i < n {
      RefinedCoversSinks(sinks[..n], contexts, metadata, context, here, i);
    }
  }

  lemma {:induction false} MaskCoversSinks(sinks: seq<SinkRegistration>, metadata: Metadata, here: Target, i: nat)
    requires i < |sinks| && MatchesStatic(sinks[i].filter, metadata, here)
    ensures SinksMask(sinks, metadata, here).contextual
      || Includes(SinksMask(sinks, metadata, here), SinkInterest(sinks[i].capability, sinks[i].detail))
  {
    var n := |sinks| - 1;
    if i < n {
      MaskCoversSinks(sinks[..n], metadata, here, i);
    }
  }

  lemma RefineCoversReceivers(
      c: Config, contexts: Contexts, metadata: Metadata, context: ContextToken, now: nat, i: nat)
    requires WellFormed(contexts) && i < |c.sinks|
    requires MatchesStatic(c.sinks[i].filter, metadata, c.here) && MatchesContext(c.sinks[i].filter, contexts, context)
    ensures MaskOf(c, metadata).Any()
    ensures Includes(Refine(c, contexts, metadata, context, MaskOf(c, metadata), now),
                     SinkInterest(c.sinks[i].capability, c.sinks[i].detail))
  {
    RefinedCoversSinks(c.sinks, contexts, metadata, context, c.here, i);
    MaskCoversSinks(c.sinks, metadata, c.here, i);
    assert SinkInterest(c.sinks[i].capability, c.sinks[i].detail).coreSupport;
  }

  lemma {:induction false} SameDeliveries(
      sinks: seq<SinkRegistration>, contexts: Contexts, metadata: Metadata, context: ContextToken, values: seq<Value>,
      interest: Interest, here: Target)
    requires WellFormed(contexts) && |metadata.fields| == |values|
    requires forall i | 0 <= i < |sinks|
      && MatchesStatic(sinks[i].filter, metadata, here) && MatchesContext(sinks[i].filter, contexts, context) ::
      Includes(interest, SinkInterest(sinks[i].capability, sinks[i].detail))
    ensures Deliveries(sinks, contexts, Structured(metadata, context, values, interest), here)
      == Deliveries(sinks, contexts, Structured(metadata, context, values, EVERYTHING), here)
  {
    if sinks != [] {
      var n := |sinks| - 1;
      var lazy, eager := Structured(metadata, context, values, interest), Structured(metadata, context, values, EVERYTHING);
      SameDeliveries(sinks[..n], contexts, metadata, context, values, interest, here);
      assert Receives(sinks[n], contexts, lazy, here) == Receives(sinks[n], contexts, eager, here);
      if Receives(sinks[n], contexts, lazy, here) {
        SameProjection(metadata, context, values, interest, sinks[n].capability, sinks[n].detail);
      }
    }
  }

  lemma SameProjection(
      metadata: Metadata, context: ContextToken, values: seq<Value>, interest: Interest,
      capability: Capability, level: DetailLevel)
    requires |metadata.fields| == |values| && Includes(interest, SinkInterest(capability, level))
    ensures ProjectEvent(Structured(metadata, context, values, interest), capability, level)
      == ProjectEvent(Structured(metadata, context, values, EVERYTHING), capability, level)
  {
    ProjectionIgnoresTheRest(metadata.fields, values, interest, capability, level);
  }

  lemma {:induction false} NoReceiversNoDeliveries(
      sinks: seq<SinkRegistration>, contexts: Contexts, event: EventRef, here: Target)
    requires WellFormed(contexts) && forall i :: 0 <= i < |sinks| ==> !Receives(sinks[i], contexts, event, here)
    ensures Deliveries(sinks, contexts, event, here) == []
  {
    if sinks != [] {
      NoReceiversNoDeliveries(sinks[..|sinks| - 1], contexts, event, here);
    }
  }

  // Under a fixed configuration, evaluating lazily delivers exactly what evaluating
  // everything would: same sinks, same fields in the same order, same omissions.
  lemma LazyIsEager(
      c: Config, contexts: Contexts, metadata: Metadata, context: ContextToken, values: seq<Value>, now: nat)
    requires WellFormed(contexts) && |metadata.fields| == |values|
    ensures LazyDeliveries(c, contexts, metadata, context, values, MaskOf(c, metadata), now)
      == EagerDeliveries(c, contexts, metadata, context, values)
  {
    var cached := MaskOf(c, metadata);
    var interest := Refine(c, contexts, metadata, context, cached, now);
    forall i | 0 <= i < |c.sinks|
      && MatchesStatic(c.sinks[i].filter, metadata, c.here) && MatchesContext(c.sinks[i].filter, contexts, context)
      ensures Includes(interest, SinkInterest(c.sinks[i].capability, c.sinks[i].detail)) && cached.Any() && interest.Any()
    {
      RefineCoversReceivers(c, contexts, metadata, context, now, i);
      assert SinkInterest(c.sinks[i].capability, c.sinks[i].detail).coreSupport;
    }
    SameDeliveries(c.sinks, contexts, metadata, context, values, interest, c.here);
    if !cached.Any() || !interest.Any() {
      NoReceiversNoDeliveries(c.sinks, contexts, Structured(metadata, context, values, EVERYTHING), c.here);
    }
  }

  // ---- ad-hoc text ----

  function TextEvent(metadata: Metadata, context: ContextToken, message: Format): EventRef {
    EventRef(metadata, context, [], Some(message))
  }

  // `log!` formats and emits only when local core fields are wanted.
  predicate FormatsText(
      c: Config, contexts: Contexts, metadata: Metadata, context: ContextToken, cached: Interest, now: nat)
    requires WellFormed(contexts)
  {
    cached.Any() && Refine(c, contexts, metadata, context, cached, now).Wants(LocalOnly, Core)
  }

  function LazyText(
      c: Config, contexts: Contexts, metadata: Metadata, context: ContextToken, message: Format,
      cached: Interest, now: nat): seq<Delivery>
    requires WellFormed(contexts)
  {
    if !FormatsText(c, contexts, metadata, context, cached, now) then []
    else Deliveries(c.sinks, contexts, TextEvent(metadata, context, message), c.here)
  }

  lemma LazyTextIsEager(
      c: Config, contexts: Contexts, metadata: Metadata, context: ContextToken, message: Format, now: nat)
    requires WellFormed(contexts) && metadata.kind == AdHocText
    ensures LazyText(c, contexts, metadata, context, message, MaskOf(c, metadata), now)
      == Deliveries(c.sinks, contexts, TextEvent(metadata, context, message), c.here)
  {
    var cached := MaskOf(c, metadata);
    var interest := Refine(c, contexts, metadata, context, cached, now);
    var event := TextEvent(metadata, context, message);
    if !cached.Any() || !interest.Wants(LocalOnly, Core) {
      forall i | 0 <= i < |c.sinks| ensures !Receives(c.sinks[i], contexts, event, c.here) {
        if Receives(c.sinks[i], contexts, event, c.here) {
          RefineCoversReceivers(c, contexts, metadata, context, now, i);
          assert false;
        }
      }
      NoReceiversNoDeliveries(c.sinks, contexts, event, c.here);
    }
  }

  // ---- any mask at all is safe ----

  lemma {:induction false} ProjectionIsAuthorized(
      fields: seq<Option<FieldRef>>, capability: Capability, level: DetailLevel, f: ProjectedField)
    requires f in ProjectFields(fields, capability, level)
    ensures Authorized(capability, level, FieldMetadata(f.name, f.privacy, f.detail))
    ensures Some(FieldRef(FieldMetadata(f.name, f.privacy, f.detail), f.value)) in fields
  {
    var n := |fields| - 1;
    if f in ProjectFields(fields[..n], capability, level) {
      ProjectionIsAuthorized(fields[..n], capability, level, f);
    } else {
      assert fields[n] == Some(FieldRef(FieldMetadata(f.name, f.privacy, f.detail), f.value));
    }
  }

  function WantedOnly(fields: seq<ProjectedField>, interest: Interest): (kept: seq<ProjectedField>)
    ensures |kept| <= |fields|
  {
    if fields == [] then []
    else
      var earlier := WantedOnly(fields[..|fields| - 1], interest);
      var last := fields[|fields| - 1];
      if interest.Wants(last.privacy, last.detail) then earlier + [last] else earlier
  }

  // Under an arbitrary, even stale, mask a sink gets its eager projection with the
  // unwanted fields left out: never a field it is not authorized for.
  lemma {:induction false} StaleMaskIsSafe(
      schema: seq<FieldMetadata>, values: seq<Value>, stale: Interest, capability: Capability, level: DetailLevel)
    requires |schema| == |values|
    ensures ProjectFields(Materialize(schema, values, stale), capability, level)
      == WantedOnly(ProjectFields(Materialize(schema, values, EVERYTHING), capability, level), stale)
  {
    if schema != [] {
      var n := |schema| - 1;
      StaleMaskIsSafe(schema[..n], values[..n], stale, capability, level);
      var earlier := ProjectFields(Materialize(schema[..n], values[..n], EVERYTHING), capability, level);
      ProjectLast(schema, values, stale, capability, level);
      ProjectLast(schema, values, EVERYTHING, capability, level);
      WantedSnoc(earlier, FieldFrom(schema[n], values[n]), stale);
    }
  }

  function FieldFrom(m: FieldMetadata, v: Value): ProjectedField {
    ProjectedField(m.name, m.privacy, m.detail, v)
  }

  // What the last field adds to a projection.
  lemma ProjectLast(
      schema: seq<FieldMetadata>, values: seq<Value>, interest: Interest, capability: Capability, level: DetailLevel)
    requires |schema| == |values| && schema != []
    ensures var n := |schema| - 1;
      ProjectFields(Materialize(schema, values, interest), capability, level)
      == ProjectFields(Materialize(schema[..n], values[..n], interest), capability, level)
         + (if interest.Wants(schema[n].privacy, schema[n].detail) && Authorized(capability, level, schema[n])
            then [FieldFrom(schema[n], values[n])] else [])
  {
    MaterializeLast(schema, values, interest);
  }

  lemma WantedSnoc(fields: seq<ProjectedField>, f: ProjectedField, interest: Interest)
    ensures WantedOnly(fields + [f], interest)
      == WantedOnly(fields, interest) + (if interest.Wants(f.privacy, f.detail) then [f] else [])
    ensures fields + [] == fields && WantedOnly(fields, interest) + [] == WantedOnly(fields, interest)
  {
    assert (fields + [f])[..|fields|] == fields;
  }

  // What an arbitrary mask makes of one sink's delivery: the fields it does not want go,
  // and count as omitted.
  function Thinned(e: ProjectedEvent, interest: Interest): ProjectedEvent {
    var kept := WantedOnly(e.fields, interest);
    e.(fields := kept, omittedFields := e.omittedFields + (|e.fields| - |kept|))
  }

  function AllThinned(deliveries: seq<Delivery>, interest: Interest): seq<Delivery> {
    if deliveries == [] then []
    else
      var n := |deliveries| - 1;
      AllThinned(deliveries[..n], interest) + [deliveries[n].(event := Thinned(deliveries[n].event, interest))]
  }

  lemma StaleProjection(
      metadata: Metadata, context: ContextToken, values: seq<Value>, stale: Interest,
      capability: Capability, level: DetailLevel)
    requires |metadata.fields| == |values|
    ensures ProjectEvent(Structured(metadata, context, values, stale), capability, level)
      == Thinned(ProjectEvent(Structured(metadata, context, values, EVERYTHING), capability, level), stale)
    ensures Accounted(metadata, ProjectEvent(Structured(metadata, context, values, stale), capability, level))
  {
    StaleMaskIsSafe(metadata.fields, values, stale, capability, level);
    ProjectionOf(metadata, context, values, stale, capability, level);
    ProjectionOf(metadata, context, values, EVERYTHING, capability, level);
  }

  lemma ProjectionOf(
      metadata: Metadata, context: ContextToken, values: seq<Value>, interest: Interest,
      capability: Capability, level: DetailLevel)
    requires |metadata.fields| == |values|
    ensures var fields := ProjectFields(Materialize(metadata.fields, values, interest), capability, level);
      && |fields| <= |metadata.fields|
      && ProjectEvent(Structured(metadata, context, values, interest), capability, level)
        == ProjectedEvent(metadata, context, fields, None, |metadata.fields| - |fields|)
  {
  }

  // Every field of the schema is handed over or counted as omitted, and a structured
  // event has no message.
  predicate Accounted(metadata: Metadata, e: ProjectedEvent) {
    |e.fields| + e.omittedFields == |metadata.fields| && e.message.None?
  }

  lemma {:induction false} StaleDeliveries(
      sinks: seq<SinkRegistration>, contexts: Contexts, metadata: Metadata, context: ContextToken, values: seq<Value>,
      stale: Interest, here: Target)
    requires WellFormed(contexts) && |metadata.fields| == |values|
    ensures var lazy := Deliveries(sinks, contexts, Structured(metadata, context, values, stale), here);
      && lazy == AllThinned(Deliveries(sinks, contexts, Structured(metadata, context, values, EVERYTHING), here), stale)
      && forall d | d in lazy :: Accounted(metadata, d.event)
  {
    if sinks != [] {
      var n := |sinks| - 1;
      var lazy, eager := Structured(metadata, context, values, stale), Structured(metadata, context, values, EVERYTHING);
      StaleDeliveries(sinks[..n], contexts, metadata, context, values, stale, here);
      assert Receives(sinks[n], contexts, lazy, here) == Receives(sinks[n], contexts, eager, here);
      if Receives(sinks[n], contexts, lazy, here) {
        StaleProjection(metadata, context, values, stale, sinks[n].capability, sinks[n].detail);
        ThinnedSnoc(Deliveries(sinks[..n], contexts, eager, here),
                    Delivery(sinks[n].id, ProjectEvent(eager, sinks[n].capability, sinks[n].detail)), stale);
      }
    }
  }

  lemma ThinnedSnoc(deliveries: seq<Delivery>, last: Delivery, interest: Interest)
    ensures AllThinned(deliveries + [last], interest)
      == AllThinned(deliveries, interest) + [last.(event := Thinned(last.event, interest))]
  {
    assert (deliveries + [last])[..|deliveries|] == deliveries;
  }

  // The whole pipeline under an arbitrary cached mask: either nothing is sent, or every
  // sink gets its eager delivery thinned by the mask, each missing field counted.
  lemma StaleDeliveriesAreSafe(
      c: Config, contexts: Contexts, metadata: Metadata, context: ContextToken, values: seq<Value>,
      cached: Interest, now: nat)
    requires WellFormed(contexts) && |metadata.fields| == |values|
    ensures var lazy := LazyDeliveries(c, contexts, metadata, context, values, cached, now);
      var interest := Refine(c, contexts, metadata, context, cached, now);
      && lazy == (if !cached.Any() || !interest.Any() then []
                  else AllThinned(EagerDeliveries(c, contexts, metadata, context, values), interest))
      && forall d | d in lazy :: Accounted(metadata, d.event)
  {
    var interest := Refine(c, contexts, metadata, context, cached, now);
    StaleDeliveries(c.sinks, contexts, metadata, context, values, interest, c.here);
  }

  lemma {:induction false} TextReachesWhole(
      sinks: seq<SinkRegistration>, contexts: Contexts, event: EventRef, here: Target, d: Delivery)
    requires WellFormed(contexts) && event.metadata.kind == AdHocText && event.fields == []
    requires d in Deliveries(sinks, contexts, event, here)
    ensures d.event.message == event.message && d.event.fields == []
    ensures d.event.omittedFields == |event.metadata.fields|
  {
    var n := |sinks| - 1;
    if d in Deliveries(sinks[..n], contexts, event, here) {
      TextReachesWhole(sinks[..n], contexts, event, here, d);
    }
  }

  // Ad-hoc text under an arbitrary cached mask: sent to every sink that would get it, or
  // to none, and always whole.
  lemma StaleTextIsWhole(
      c: Config, contexts: Contexts, metadata: Metadata, context: ContextToken, message: Format,
      cached: Interest, now: nat)
    requires WellFormed(contexts) && metadata.kind == AdHocText
    ensures var lazy := LazyText(c, contexts, metadata, context, message, cached, now);
      && (lazy == [] || lazy == LazyText(c, contexts, metadata, context, message, MaskOf(c, metadata), now))
      && forall d | d in lazy :: d.event.message == Some(message) && d.event.fields == []
  {
    LazyTextIsEager(c, contexts, metadata, context, message, now);
    forall d | d in LazyText(c, contexts, metadata, context, message, cached, now)
      ensures d.event.message == Some(message) && d.event.fields == []
    {
      TextReachesWhole(c.sinks, contexts, TextEvent(metadata, context, message), c.here, d);
    }
  }
}
