// What a filter selects and who is told what, stated outright: the severities in
// order, selectors as whole names or leading parts of them, and for each capability
// the fields it may see. The runtime's answers mean exactly this.

module Selection {
  import opened Basics
  import opened Utf8
  import opened Facade
  import opened Interest
  import opened Lineage
  import opened Runtime
  import opened LazyEvaluation

  // ---- filters ----

  // The severities from `least` upward.
  predicate AtLeast(s: Severity, least: Severity) {
    match least
    case Trace => true
    case Debug => s != Trace
    case Info => s == Info || s == Warn || s == Error || s == Critical
    case Warn => s == Warn || s == Error || s == Critical
    case Error => s == Error || s == Critical
    case Critical => s == Critical
  }

  // The selector is the name itself, or a part of it that a `.` (46) or a `::`
  // (58, 58) follows.
  ghost predicate IsUnder(name: seq<u8>, selector: seq<u8>) {
    || name == selector
    || (exists rest: seq<u8> :: name == selector + [46] + rest)
    || (exists rest: seq<u8> :: name == selector + [58, 58] + rest)
  }

  ghost predicate IsInDomain(metadata: Metadata, selector: Text) {
    || IsUnder(metadata.package, selector)
    || IsUnder(metadata.target, selector)
    || IsUnder(metadata.moduleName, selector)
    || (metadata.domain.Some? && IsUnder(metadata.domain.value, selector))
  }

  // Every criterion that is set narrows the selection; one that is not set leaves it.
  ghost predicate Selected(f: Filter, metadata: Metadata, here: Target) {
    && (match f.target case None => true case Some(target) => target == here)
    && (match f.domain case None => true case Some(selector) => IsInDomain(metadata, selector))
    && (match f.eventName case None => true case Some(selector) => IsUnder(metadata.eventName, selector))
    && (match f.class_ case None => true case Some(class_) => metadata.class_ == class_)
    && (match f.minimumSeverity case None => true case Some(least) => AtLeast(metadata.severity, least))
  }

  // A filter without a context is for every context; one with a context is for that
  // context, or for all that hang below it along parents.
  ghost predicate IsAbout(f: Filter, contexts: Contexts, context: ContextToken) {
    match f.context
    case None => true
    case Some(root) => if f.descendants then Connected(contexts, context, root) else context == root
  }

  lemma UnderExactly(name: Text, selector: Text)
    ensures HierarchyMatches(name, selector) <==> IsUnder(name, selector)
  {
    if HierarchyMatches(name, selector) && name != selector {
      var suffix := name[|selector|..];
      if suffix[0] == DOT {
        assert name == selector + [46] + suffix[1..];
      } else {
        assert name == selector + [58, 58] + suffix[2..];
      }
    }
    if IsUnder(name, selector) && name != selector {
      if rest: seq<u8> :| name == selector + [46] + rest {
        assert name[|selector|..] == [46] + rest;
      } else {
        var rest: seq<u8> :| name == selector + [58, 58] + rest;
        assert name[|selector|..] == [58, 58] + rest;
      }
    }
  }

  lemma DomainExactly(metadata: Metadata, selector: Text)
    ensures DomainMatches(metadata, selector) <==> IsInDomain(metadata, selector)
  {
    UnderExactly(metadata.package, selector);
    UnderExactly(metadata.target, selector);
    UnderExactly(metadata.moduleName, selector);
    if metadata.domain.Some? {
      UnderExactly(metadata.domain.value, selector);
    }
  }

  lemma SelectedExactly(f: Filter, metadata: Metadata, here: Target)
    ensures MatchesStatic(f, metadata, here) <==> Selected(f, metadata, here)
  {
    if f.domain.Some? {
      DomainExactly(metadata, f.domain.value);
    }
    if f.eventName.Some? {
      UnderExactly(metadata.eventName, f.eventName.value);
    }
  }

  lemma AboutExactly(f: Filter, contexts: Contexts, context: ContextToken)
    requires WellFormed(contexts)
    ensures MatchesContext(f, contexts, context) <==> IsAbout(f, contexts, context)
  {
    if f.context.Some? {
      DescendsIsConnected(contexts, context, f.context.value);
    }
  }

  // A filter that only sets a minimum severity selects that severity and the ones
  // above it; one that sets nothing selects everything.
  lemma SeverityAlone(least: Option<Severity>, metadata: Metadata, here: Target)
    ensures MatchesStatic(Filter(None, None, None, least, None, false, None), metadata, here)
      <==> least.None? || AtLeast(metadata.severity, least.value)
  {
  }

  // ---- capabilities ----

  // What a view of this capability and detail level may see.
  predicate MaySee(capability: Capability, level: DetailLevel, privacy: Privacy, detail: Detail) {
    && (match privacy
        case SupportSafe => true
        case LocalOnly => capability == LocalRetained || capability == TrustedEphemeral
        case Secret => capability == TrustedEphemeral)
    && (match detail case Core => true case Deferred => level == Full)
  }

  lemma SeesExactly(capability: Capability, level: DetailLevel, privacy: Privacy, detail: Detail)
    ensures SinkInterest(capability, level).Wants(privacy, detail) <==> MaySee(capability, level, privacy, detail)
    ensures !SinkInterest(capability, level).contextual
  {
  }

  function IsSeen(capability: Capability, level: DetailLevel): Option<FieldRef> -> bool {
    (o: Option<FieldRef>) => o.Some? && MaySee(capability, level, o.value.metadata.privacy, o.value.metadata.detail)
  }

  // `out` has the evaluated fields a view may see, in order and unchanged; what it
  // lacks of the schema is counted, and only a local view gets the message.
  predicate ShowsTo(out: ProjectedEvent, event: EventRef, capability: Capability, level: DetailLevel) {
    var seen := Sift(event.fields, IsSeen(capability, level));
    && out.metadata == event.metadata && out.context == event.context
    && out.message == (match capability case RemoteSink => None case _ => event.message)
    && out.omittedFields == Max(|event.metadata.fields|, |seen|) - |seen|
    && |out.fields| == |seen|
    && forall k :: 0 <= k < |seen| ==> IsFieldOf(out.fields[k], seen[k])
  }

  predicate IsFieldOf(f: ProjectedField, o: Option<FieldRef>) {
    && o.Some? && f.name == o.value.metadata.name && f.privacy == o.value.metadata.privacy
    && f.detail == o.value.metadata.detail && f.value == o.value.value
  }

  lemma {:induction false} ProjectedFieldsMean(fields: seq<Option<FieldRef>>, capability: Capability, level: DetailLevel)
    ensures var seen := Sift(fields, IsSeen(capability, level));
      && |ProjectFields(fields, capability, level)| == |seen|
      && forall k :: 0 <= k < |seen| ==> IsFieldOf(ProjectFields(fields, capability, level)[k], seen[k])
  {
    if fields != [] {
      ProjectedFieldsMean(fields[..|fields| - 1], capability, level);
    }
  }

  lemma ProjectionMeans(event: EventRef, capability: Capability, level: DetailLevel)
    ensures ShowsTo(ProjectEvent(event, capability, level), event, capability, level)
  {
    ProjectedFieldsMean(event.fields, capability, level);
  }

  // ---- interest ----

  // A registered view without a context asks for a field group.
  ghost predicate SinkAsks(sink: SinkRegistration, metadata: Metadata, here: Target, privacy: Privacy, detail: Detail) {
    sink.filter.context.None? && Selected(sink.filter, metadata, here) && MaySee(sink.capability, sink.detail, privacy, detail)
  }

  // What the cached mask of a call site asks for outright.
  ghost predicate Asks(c: Config, metadata: Metadata, privacy: Privacy, detail: Detail) {
    || c.baseline.Wants(privacy, detail)
    || exists i :: 0 <= i < |c.sinks| && SinkAsks(c.sinks[i], metadata, c.here, privacy, detail)
  }

  // ... and when it leaves the answer to the context.
  ghost predicate Defers(c: Config, metadata: Metadata) {
    || c.baseline.contextual
    || (exists i :: 0 <= i < |c.sinks| && c.sinks[i].filter.context.Some? && Selected(c.sinks[i].filter, metadata, c.here))
    || exists i :: 0 <= i < |c.activations| && Selected(c.activations[i].filter, metadata, c.here)
  }

  lemma {:induction false} SinksMaskMeans(
      sinks: seq<SinkRegistration>, metadata: Metadata, here: Target, privacy: Privacy, detail: Detail)
    ensures SinksMask(sinks, metadata, here).Wants(privacy, detail)
      <==> exists i :: 0 <= i < |sinks| && SinkAsks(sinks[i], metadata, here, privacy, detail)
    ensures SinksMask(sinks, metadata, here).contextual
      <==> exists i :: 0 <= i < |sinks| && sinks[i].filter.context.Some? && Selected(sinks[i].filter, metadata, here)
  {
    if sinks != [] {
      var n := |sinks| - 1;
      SinksMaskMeans(sinks[..n], metadata, here, privacy, detail);
      SelectedExactly(sinks[n].filter, metadata, here);
      SeesExactly(sinks[n].capability, sinks[n].detail, privacy, detail);
      assert forall i :: 0 <= i < n ==> sinks[..n][i] == sinks[i];
    }
  }

  lemma {:induction false} ActivationsMaskMeans(
      activations: seq<Activation>, metadata: Metadata, here: Target, privacy: Privacy, detail: Detail)
    ensures !ActivationsMask(activations, metadata, here).Wants(privacy, detail)
    ensures ActivationsMask(activations, metadata, here).contextual
      <==> exists i :: 0 <= i < |activations| && Selected(activations[i].filter, metadata, here)
  {
    if activations != [] {
      var n := |activations| - 1;
      ActivationsMaskMeans(activations[..n], metadata, here, privacy, detail);
      SelectedExactly(activations[n].filter, metadata, here);
      assert forall i :: 0 <= i < n ==> activations[..n][i] == activations[i];
    }
  }

  lemma MaskMeans(c: Config, metadata: Metadata, privacy: Privacy, detail: Detail)
    ensures MaskOf(c, metadata).Wants(privacy, detail) <==> Asks(c, metadata, privacy, detail)
    ensures MaskOf(c, metadata).contextual <==> Defers(c, metadata)
  {
    var sinks, activations := SinksMask(c.sinks, metadata, c.here), ActivationsMask(c.activations, metadata, c.here);
    SinksMaskMeans(c.sinks, metadata, c.here, privacy, detail);
    ActivationsMaskMeans(c.activations, metadata, c.here, privacy, detail);
    ThreeWant(c.baseline, sinks, activations, privacy, detail);
  }

  lemma ThreeWant(a: Interest, b: Interest, c: Interest, privacy: Privacy, detail: Detail)
    ensures a.Union(b.Union(c)).Wants(privacy, detail)
      <==> a.Wants(privacy, detail) || b.Wants(privacy, detail) || c.Wants(privacy, detail)
    ensures a.Union(b.Union(c)).contextual <==> a.contextual || b.contextual || c.contextual
  {
    UnionWants(b, c, privacy, detail);
    UnionWants(a, b.Union(c), privacy, detail);
  }

  // A registered view that is handed the event may see a field group.
  ghost predicate SinkNeeds(
      sink: SinkRegistration, contexts: Contexts, metadata: Metadata, context: ContextToken, here: Target,
      privacy: Privacy, detail: Detail)
  {
    && Selected(sink.filter, metadata, here) && IsAbout(sink.filter, contexts, context)
    && MaySee(sink.capability, sink.detail, privacy, detail)
  }

  // An activation that has not run out asks for a field group.
  ghost predicate ActivationNeeds(
      a: Activation, contexts: Contexts, metadata: Metadata, context: ContextToken, here: Target, now: nat,
      privacy: Privacy, detail: Detail)
  {
    && now < a.expires && Selected(a.filter, metadata, here) && IsAbout(a.filter, contexts, context)
    && a.interest.Wants(privacy, detail)
  }

  // A field group somebody wants of this call site, in this context, at this time.
  ghost predicate Needs(
      c: Config, contexts: Contexts, metadata: Metadata, context: ContextToken, now: nat, privacy: Privacy, detail: Detail)
  {
    || c.baseline.Wants(privacy, detail)
    || (exists i :: 0 <= i < |c.sinks| && SinkNeeds(c.sinks[i], contexts, metadata, context, c.here, privacy, detail))
    || SomeNeeds(c.activations, contexts, metadata, context, c.here, now, privacy, detail)
  }

  lemma {:induction false} SinksRefinedMean(
      sinks: seq<SinkRegistration>, contexts: Contexts, metadata: Metadata, context: ContextToken, here: Target,
      privacy: Privacy, detail: Detail)
    requires WellFormed(contexts)
    ensures SinksRefined(sinks, contexts, metadata, context, here).Wants(privacy, detail)
      <==> exists i :: 0 <= i < |sinks| && SinkNeeds(sinks[i], contexts, metadata, context, here, privacy, detail)
  {
    if sinks != [] {
      var n := |sinks| - 1;
      SinksRefinedMean(sinks[..n], contexts, metadata, context, here, privacy, detail);
      SelectedExactly(sinks[n].filter, metadata, here);
      AboutExactly(sinks[n].filter, contexts, context);
      SeesExactly(sinks[n].capability, sinks[n].detail, privacy, detail);
      assert forall i :: 0 <= i < n ==> sinks[..n][i] == sinks[i];
    }
  }

  function HasTime(now: nat): Activation -> bool {
    (a: Activation) => now < a.expires
  }

  // The activations kept are those that have time left, in order.
  lemma {:induction false} LiveMeans(activations: seq<Activation>, now: nat)
    ensures Live(activations, now) == Sift(activations, HasTime(now))
  {
    if activations != [] {
      LiveMeans(activations[..|activations| - 1], now);
    }
  }

  lemma LiveLast(activations: seq<Activation>, now: nat, contexts: Contexts, metadata: Metadata, context: ContextToken, here: Target)
    requires WellFormed(contexts) && activations != []
    ensures var n := |activations| - 1;
      var earlier := ActivationsRefined(Live(activations[..n], now), contexts, metadata, context, here);
      ActivationsRefined(Live(activations, now), contexts, metadata, context, here)
      == if now < activations[n].expires && Selected(activations[n].filter, metadata, here)
            && IsAbout(activations[n].filter, contexts, context)
         then earlier.Union(activations[n].interest) else earlier
  {
    var n := |activations| - 1;
    SelectedExactly(activations[n].filter, metadata, here);
    AboutExactly(activations[n].filter, contexts, context);
    if now < activations[n].expires {
      var live := Live(activations, now);
      assert live[..|live| - 1] == Live(activations[..n], now);
    }
  }

  lemma {:induction false} ActivationsRefinedMean(
      activations: seq<Activation>, now: nat, contexts: Contexts, metadata: Metadata, context: ContextToken, here: Target,
      privacy: Privacy, detail: Detail)
    requires WellFormed(contexts)
    ensures ActivationsRefined(Live(activations, now), contexts, metadata, context, here).Wants(privacy, detail)
      <==> SomeNeeds(activations, contexts, metadata, context, here, now, privacy, detail)
  {
    if activations != [] {
      var n := |activations| - 1;
      ActivationsRefinedMean(activations[..n], now, contexts, metadata, context, here, privacy, detail);
      LiveLast(activations, now, contexts, metadata, context, here);
      UnionWants(ActivationsRefined(Live(activations[..n], now), contexts, metadata, context, here),
                 activations[n].interest, privacy, detail);
      SomeNeedsLast(activations, contexts, metadata, context, here, now, privacy, detail);
    }
  }

  ghost predicate SomeNeeds(
      activations: seq<Activation>, contexts: Contexts, metadata: Metadata, context: ContextToken, here: Target, now: nat,
      privacy: Privacy, detail: Detail)
  {
    exists i :: 0 <= i < |activations|
      && ActivationNeeds(activations[i], contexts, metadata, context, here, now, privacy, detail)
  }

  lemma SomeNeedsLast(
      activations: seq<Activation>, contexts: Contexts, metadata: Metadata, context: ContextToken, here: Target, now: nat,
      privacy: Privacy, detail: Detail)
    requires activations != []
    ensures SomeNeeds(activations, contexts, metadata, context, here, now, privacy, detail)
      <==> (SomeNeeds(activations[..|activations| - 1], contexts, metadata, context, here, now, privacy, detail)
            || ActivationNeeds(activations[|activations| - 1], contexts, metadata, context, here, now, privacy, detail))
  {
    var n := |activations| - 1;
    if i :| 0 <= i < n && ActivationNeeds(activations[i], contexts, metadata, context, here, now, privacy, detail) {
      assert activations[..n][i] == activations[i];
    }
    if i :| 0 <= i < n && ActivationNeeds(activations[..n][i], contexts, metadata, context, here, now, privacy, detail) {
      assert activations[..n][i] == activations[i];
    }
  }

  lemma RefinedMeans(
      c: Config, contexts: Contexts, metadata: Metadata, context: ContextToken, now: nat, privacy: Privacy, detail: Detail)
    requires WellFormed(contexts)
    ensures RefinedMask(c, contexts, metadata, context, now).Wants(privacy, detail)
      <==> Needs(c, contexts, metadata, context, now, privacy, detail)
  {
    SinksRefinedMean(c.sinks, contexts, metadata, context, c.here, privacy, detail);
    ActivationsRefinedMean(c.activations, now, contexts, metadata, context, c.here, privacy, detail);
  }

  // ---- what a call site evaluates ----

  // With the mask of the lists as they stand, a call site works with exactly what
  // somebody needs.
  lemma RefineIsNeed(
      c: Config, contexts: Contexts, metadata: Metadata, context: ContextToken, now: nat, privacy: Privacy, detail: Detail)
    requires WellFormed(contexts)
    ensures Refine(c, contexts, metadata, context, MaskOf(c, metadata), now).Wants(privacy, detail)
      <==> Needs(c, contexts, metadata, context, now, privacy, detail)
  {
    MaskMeans(c, metadata, privacy, detail);
    if MaskOf(c, metadata).contextual {
      RefinedMeans(c, contexts, metadata, context, now, privacy, detail);
    } else {
      AskIsNeed(c, contexts, metadata, context, now, privacy, detail);
    }
  }

  lemma AskIsNeed(
      c: Config, contexts: Contexts, metadata: Metadata, context: ContextToken, now: nat, privacy: Privacy, detail: Detail)
    requires !Defers(c, metadata)
    ensures Asks(c, metadata, privacy, detail) <==> Needs(c, contexts, metadata, context, now, privacy, detail)
  {
    forall i | 0 <= i < |c.sinks|
      ensures SinkAsks(c.sinks[i], metadata, c.here, privacy, detail)
        <==> SinkNeeds(c.sinks[i], contexts, metadata, context, c.here, privacy, detail)
    {
    }
  }

  // A field's value is computed exactly when somebody needs its group.
  lemma {:induction false} EvaluatedIfNeeded(
      schema: seq<FieldMetadata>, values: seq<Value>, interest: Interest, i: nat)
    requires |schema| == |values| && i < |schema|
    ensures Materialize(schema, values, interest)[i]
      == if interest.Wants(schema[i].privacy, schema[i].detail) then Some(FieldRef(schema[i], values[i])) else None
  {
    var n := |schema| - 1;
    if i < n {
      EvaluatedIfNeeded(schema[..n], values[..n], interest, i);
    }
  }

  // A cached mask that does not defer to the context is used as it is: nothing is asked
  // of the runtime again.
  lemma CachedMaskDecides(
      c: Config, contexts: Contexts, metadata: Metadata, context: ContextToken, values: seq<Value>,
      cached: Interest, now: nat, i: nat)
    requires WellFormed(contexts) && |metadata.fields| == |values| && i < |values| && !cached.contextual
    ensures var interest := Refine(c, contexts, metadata, context, cached, now);
      Structured(metadata, context, values, interest).fields[i]
      == if cached.Wants(metadata.fields[i].privacy, metadata.fields[i].detail)
         then Some(FieldRef(metadata.fields[i], values[i])) else None
  {
    EvaluatedIfNeeded(metadata.fields, values, cached, i);
  }

  lemma EvaluationIsLazy(
      c: Config, contexts: Contexts, metadata: Metadata, context: ContextToken, values: seq<Value>, now: nat, i: nat)
    requires WellFormed(contexts) && |metadata.fields| == |values| && i < |values|
    ensures var interest := Refine(c, contexts, metadata, context, MaskOf(c, metadata), now);
      Structured(metadata, context, values, interest).fields[i]
      == if Needs(c, contexts, metadata, context, now, metadata.fields[i].privacy, metadata.fields[i].detail)
         then Some(FieldRef(metadata.fields[i], values[i])) else None
  {
    var interest := Refine(c, contexts, metadata, context, MaskOf(c, metadata), now);
    EvaluatedIfNeeded(metadata.fields, values, interest, i);
    RefineIsNeed(c, contexts, metadata, context, now, metadata.fields[i].privacy, metadata.fields[i].detail);
  }

  // Ad-hoc text is formatted exactly when somebody needs the local core group.
  lemma FormattingIsLazy(
      c: Config, contexts: Contexts, metadata: Metadata, context: ContextToken, now: nat)
    requires WellFormed(contexts)
    ensures FormatsText(c, contexts, metadata, context, MaskOf(c, metadata), now)
      <==> Needs(c, contexts, metadata, context, now, LocalOnly, Core)
  {
    RefineIsNeed(c, contexts, metadata, context, now, LocalOnly, Core);
    var interest := Refine(c, contexts, metadata, context, MaskOf(c, metadata), now);
    if !MaskOf(c, metadata).Any() {
      assert interest == NOTHING;
    }
  }

  // ---- delivery ----

  // The event is for this sink; ad-hoc text is for no remote one.
  ghost predicate IsFor(sink: SinkRegistration, contexts: Contexts, event: EventRef, here: Target) {
    && Selected(sink.filter, event.metadata, here) && IsAbout(sink.filter, contexts, event.context)
    && (match sink.capability case RemoteSink => event.metadata.kind != AdHocText case _ => true)
  }

  ghost function Audience(contexts: Contexts, event: EventRef, here: Target): SinkRegistration -> bool {
    (sink: SinkRegistration) => IsFor(sink, contexts, event, here)
  }

  // Each sink the event is for is handed, in registration order, what it may see of it.
  ghost predicate Reaches(
      deliveries: seq<Delivery>, sinks: seq<SinkRegistration>, contexts: Contexts, event: EventRef, here: Target)
  {
    var audience := Sift(sinks, Audience(contexts, event, here));
    && |deliveries| == |audience|
    && forall k :: 0 <= k < |audience| ==>
         && deliveries[k].sink == audience[k].id
         && ShowsTo(deliveries[k].event, event, audience[k].capability, audience[k].detail)
  }

  lemma ReceivesExactly(sink: SinkRegistration, contexts: Contexts, event: EventRef, here: Target)
    requires WellFormed(contexts)
    ensures Receives(sink, contexts, event, here) <==> IsFor(sink, contexts, event, here)
  {
    SelectedExactly(sink.filter, event.metadata, here);
    AboutExactly(sink.filter, contexts, event.context);
  }

  lemma {:induction false} DeliveriesReach(sinks: seq<SinkRegistration>, contexts: Contexts, event: EventRef, here: Target)
    requires WellFormed(contexts)
    ensures Reaches(Deliveries(sinks, contexts, event, here), sinks, contexts, event, here)
  {
    if sinks != [] {
      var n := |sinks| - 1;
      DeliveriesReach(sinks[..n], contexts, event, here);
      ReceivesExactly(sinks[n], contexts, event, here);
      ProjectionMeans(event, sinks[n].capability, sinks[n].detail);
    }
  }
}
