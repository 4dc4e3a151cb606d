// The runtime's mutable state: every configuration change advances the generation
// after it has been made, and interest and delivery are loops over the lists.

module RuntimeState {
  import opened Basics
  import opened Utf8
  import opened Facade
  import opened Interest
  import opened Lineage
  import opened Runtime
  import opened Selection

  datatype ActivationResult = Enabled | UnavailableTarget | NotCompiled | UnknownSelector

  function Without(sinks: seq<SinkRegistration>, i: nat): seq<SinkRegistration>
    requires i < |sinks|
  {
    sinks[..i] + sinks[i + 1..]
  }

  predicate IsFirst(sinks: seq<SinkRegistration>, id: nat, i: nat) {
    i < |sinks| && sinks[i].id == id && forall j | 0 <= j < i :: sinks[j].id != id
  }

  predicate HasSink(sinks: seq<SinkRegistration>, id: nat) {
    exists i :: 0 <= i < |sinks| && sinks[i].id == id
  }

  // Whether some call site seen so far would be selected.
  predicate Selects(catalog: seq<Metadata>, filter: Filter, here: Target) {
    exists i :: 0 <= i < |catalog| && MatchesStatic(filter, catalog[i], here)
  }

  predicate InDomain(metadata: Metadata, filter: Filter) {
    filter.domain.Some? ==> DomainMatches(metadata, filter.domain.value)
  }

  predicate KnowsDomain(catalog: seq<Metadata>, filter: Filter) {
    exists i :: 0 <= i < |catalog| && InDomain(catalog[i], filter)
  }

  ghost predicate IsDomainOf(metadata: Metadata, filter: Filter) {
    filter.domain.None? || IsInDomain(metadata, filter.domain.value)
  }

  // What is known of a selector: some call site seen is selected, or only the event is
  // unheard of in a domain that is known, or nothing is.
  ghost predicate IsKnownAs(catalog: seq<Metadata>, filter: Filter, here: Target, r: ActivationResult) {
    var selects := exists i :: 0 <= i < |catalog| && Selected(filter, catalog[i], here);
    var inDomain := exists i :: 0 <= i < |catalog| && IsDomainOf(catalog[i], filter);
    match r
    case Enabled => selects
    case NotCompiled => !selects && filter.eventName.Some? && inDomain
    case UnknownSelector => !selects && (filter.eventName.None? || !inDomain)
    case UnavailableTarget => false
  }

  lemma AvailabilityMeans(catalog: seq<Metadata>, filter: Filter, here: Target)
    ensures IsKnownAs(catalog, filter, here, Availability(catalog, filter, here))
  {
    forall i | 0 <= i < |catalog|
      ensures MatchesStatic(filter, catalog[i], here) <==> Selected(filter, catalog[i], here)
      ensures InDomain(catalog[i], filter) <==> IsDomainOf(catalog[i], filter)
    {
      SelectedExactly(filter, catalog[i], here);
      if filter.domain.Some? {
        DomainExactly(catalog[i], filter.domain.value);
      }
    }
  }

  function Availability(catalog: seq<Metadata>, filter: Filter, here: Target): ActivationResult {
    if Selects(catalog, filter, here) then Enabled
    else if filter.eventName.Some? && KnowsDomain(catalog, filter) then NotCompiled
    else UnknownSelector
  }

  function CountPanics(deliveries: seq<Delivery>, panicking: set<nat>): nat {
    if deliveries == [] then 0
    else
      var last := deliveries[|deliveries| - 1];
      CountPanics(deliveries[..|deliveries| - 1], panicking) + (if last.sink in panicking then 1 else 0)
  }

  function IsToOneOf(sinks: set<nat>): Delivery -> bool {
    (d: Delivery) => d.sink in sinks
  }

  lemma {:induction false} PanicsMean(deliveries: seq<Delivery>, panicking: set<nat>)
    ensures CountPanics(deliveries, panicking) == |Sift(deliveries, IsToOneOf(panicking))|
  {
    if deliveries != [] {
      PanicsMean(deliveries[..|deliveries| - 1], panicking);
    }
  }

  // The mask wants what the lists ask for outright, and defers to the context when one
  // of them does.
  ghost predicate IsAskedBy(interest: Interest, c: Config, metadata: Metadata) {
    && (forall p, d :: interest.Wants(p, d) <==> Asks(c, metadata, p, d))
    && (interest.contextual <==> Defers(c, metadata))
  }

  // The mask wants what somebody needs in this context at this time.
  ghost predicate IsNeededBy(
      interest: Interest, c: Config, contexts: Contexts, metadata: Metadata, context: ContextToken, now: nat)
  {
    forall p, d :: interest.Wants(p, d) <==> Needs(c, contexts, metadata, context, now, p, d)
  }

  lemma MaskMeansAll(c: Config, metadata: Metadata)
    ensures IsAskedBy(MaskOf(c, metadata), c, metadata)
  {
    forall p, d ensures MaskOf(c, metadata).Wants(p, d) <==> Asks(c, metadata, p, d) {
      MaskMeans(c, metadata, p, d);
    }
    MaskMeans(c, metadata, SupportSafe, Core);
  }

  lemma RefinedMeansAll(c: Config, contexts: Contexts, metadata: Metadata, context: ContextToken, now: nat)
    requires WellFormed(contexts)
    ensures IsNeededBy(RefinedMask(c, contexts, metadata, context, now), c, contexts, metadata, context, now)
  {
    var mask := RefinedMask(c, contexts, metadata, context, now);
    forall p, d ensures mask.Wants(p, d) <==> Needs(c, contexts, metadata, context, now, p, d) {
      RefinedMeans(c, contexts, metadata, context, now, p, d);
    }
  }

  function ForSink(sink: SinkRegistration, contexts: Contexts, event: EventRef, here: Target): seq<Delivery>
    requires WellFormed(contexts)
  {
    if Receives(sink, contexts, event, here)
    then [Delivery(sink.id, ProjectEvent(event, sink.capability, sink.detail))] else []
  }

  lemma OneMoreSink(sinks: seq<SinkRegistration>, i: nat, contexts: Contexts, event: EventRef, here: Target)
    requires WellFormed(contexts) && i < |sinks|
    ensures Deliveries(sinks[..i + 1], contexts, event, here)
      == Deliveries(sinks[..i], contexts, event, here) + ForSink(sinks[i], contexts, event, here)
  {
    assert sinks[..i + 1][..i] == sinks[..i];
  }

  lemma OneMorePanic(deliveries: seq<Delivery>, delivery: seq<Delivery>, panicking: set<nat>)
    requires |delivery| <= 1
    ensures CountPanics(deliveries + delivery, panicking)
      == CountPanics(deliveries, panicking) + (if delivery != [] && delivery[0].sink in panicking then 1 else 0)
  {
    if delivery == [] {
      assert deliveries + delivery == deliveries;
    } else {
      assert (deliveries + delivery)[..|deliveries|] == deliveries;
    }
  }

  class RuntimeCore {
    const here: Target
    var generation: nat
    var baseline: Interest
    var sinks: seq<SinkRegistration>
    var activations: seq<Activation>
    var catalog: seq<Metadata>
    var nextSink: nat
    var sinkPanics: nat
    var reentrantDropped: nat
    var inDispatch: bool

    function View(): Config
      reads this
    {
      Config(here, baseline, sinks, activations)
    }

    constructor (here: Target)
      ensures View() == Config(here, NOTHING, [], []) && generation == 0 && catalog == [] && nextSink == 1
      ensures sinkPanics == 0 && reentrantDropped == 0 && !inDispatch
    {
      this.here := here;
      generation, baseline, sinks, activations, catalog, nextSink := 0, NOTHING, [], [], [], 1;
      sinkPanics, reentrantDropped, inDispatch := 0, 0, false;
    }

    method SetInterest(interest: Interest)
      modifies `baseline, `generation
      ensures View() == old(View()).(baseline := interest.WithoutContextual()) && generation == old(generation) + 1
    {
      baseline := interest.WithoutContextual();
      generation := generation + 1;
    }

    method AddSink(capability: Capability, filter: Filter, detail: DetailLevel) returns (id: nat)
      modifies `sinks, `nextSink, `generation
      ensures id == old(nextSink) && nextSink == id + 1 && generation == old(generation) + 1
      ensures View() == old(View()).(sinks := old(sinks) + [SinkRegistration(id, capability, detail, filter)])
    {
      id := nextSink;
      nextSink := nextSink + 1;
      sinks := sinks + [SinkRegistration(id, capability, detail, filter)];
      generation := generation + 1;
    }

    // Removes the first registration with this id; only a removal is a change.
    method RemoveSink(id: nat) returns (removed: bool)
      modifies `sinks, `generation
      ensures removed == HasSink(old(sinks), id)
      ensures !removed ==> sinks == old(sinks) && generation == old(generation)
      ensures removed ==> generation == old(generation) + 1
      ensures removed ==> exists i :: IsFirst(old(sinks), id, i) && sinks == Without(old(sinks), i)
    {
      var i := 0;
      while i < |sinks| && sinks[i].id != id
        invariant i <= |sinks| && forall j :: 0 <= j < i ==> sinks[j].id != id
      {
        i := i + 1;
      }
      removed := i < |sinks|;
      if removed {
        assert IsFirst(sinks, id, i);
        sinks := Without(sinks, i);
        generation := generation + 1;
      }
    }

    method SelectorAvailability(filter: Filter) returns (r: ActivationResult)
      ensures r == Availability(catalog, filter, here) && IsKnownAs(catalog, filter, here, r)
    {
      AvailabilityMeans(catalog, filter, here);
      var selected := SomeSelected(filter);
      if selected {
        return Enabled;
      }
      if filter.eventName.Some? {
        var known := SomeKnown(filter);
        return if known then NotCompiled else UnknownSelector;
      }
      return UnknownSelector;
    }

    method SomeSelected(filter: Filter) returns (any: bool)
      ensures any <==> Selects(catalog, filter, here)
    {
      any := false;
      for i := 0 to |catalog|
        invariant any <==> exists j :: 0 <= j < i && MatchesStatic(filter, catalog[j], here)
      {
        any := any || MatchesStatic(filter, catalog[i], here);
      }
    }

    method SomeKnown(filter: Filter) returns (any: bool)
      ensures any <==> KnowsDomain(catalog, filter)
    {
      any := false;
      for i := 0 to |catalog|
        invariant any <==> exists j :: 0 <= j < i && InDomain(catalog[j], filter)
      {
        any := any || InDomain(catalog[i], filter);
      }
    }

    method Activate(filter: Filter, interest: Interest, now: nat, ttl: nat) returns (r: ActivationResult)
      modifies `activations, `generation
      ensures r ==
        if filter.target.Some? && filter.target.value != here then UnavailableTarget
        else if filter.context.None? then Availability(catalog, filter, here)
        else Enabled
      ensures r == UnavailableTarget <==> filter.target.Some? && filter.target.value != here
      ensures r != UnavailableTarget && filter.context.None? ==> IsKnownAs(catalog, filter, here, r)
      ensures r != Enabled ==> View() == old(View()) && generation == old(generation)
      ensures r == Enabled ==> generation == old(generation) + 1
      ensures r == Enabled ==>
        View() == old(View()).(activations := old(activations) + [Activation(filter, interest.WithoutContextual(), now + ttl)])
    {
      if filter.target.Some? && filter.target.value != here {
        return UnavailableTarget;
      }
      var availability := SelectorAvailability(filter);
      if availability != Enabled && filter.context.None? {
        return availability;
      }
      activations := activations + [Activation(filter, interest.WithoutContextual(), now + ttl)];
      generation := generation + 1;
      return Enabled;
    }

    // Drops expired activations, and advances the generation only if some were.
    method PruneExpired(now: nat)
      modifies `activations, `generation
      ensures View() == old(View()).(activations := Live(old(activations), now))
      ensures activations == Sift(old(activations), HasTime(now))
      ensures generation == old(generation) + (if activations == old(activations) then 0 else 1)
    {
      LiveMeans(activations, now);
      var live: seq<Activation> := [];
      for i := 0 to |activations|
        invariant live == Live(activations[..i], now) && |live| <= i
        invariant |live| == i ==> live == activations[..i]
      {
        assert activations[..i + 1][..i] == activations[..i];
        if activations[i].expires > now {
          live := live + [activations[i]];
        }
      }
      assert activations[..|activations|] == activations;
      if |live| != |activations| {
        activations := live;
        generation := generation + 1;
      }
    }

    // The loop over the sinks that `interest` runs.
    method SinksAsk(metadata: Metadata) returns (mask: Interest)
      ensures mask == SinksMask(sinks, metadata, here)
    {
      mask := NOTHING;
      for i := 0 to |sinks|
        invariant mask == SinksMask(sinks[..i], metadata, here)
      {
        assert sinks[..i + 1][..i] == sinks[..i];
        if MatchesStatic(sinks[i].filter, metadata, here) {
          mask := mask.Union(
            if sinks[i].filter.context.Some? then ONLY_CONTEXTUAL else SinkInterest(sinks[i].capability, sinks[i].detail));
        }
      }
      assert sinks[..|sinks|] == sinks;
    }

    // ... and the one over the activations: each makes the site ask again.
    method ActivationsAsk(metadata: Metadata) returns (active: Interest)
      ensures active == ActivationsMask(activations, metadata, here)
    {
      active := NOTHING;
      for i := 0 to |activations|
        invariant active == ActivationsMask(activations[..i], metadata, here)
      {
        assert activations[..i + 1][..i] == activations[..i];
        if MatchesStatic(activations[i].filter, metadata, here) {
          active := active.Union(ONLY_CONTEXTUAL);
        }
      }
      assert activations[..|activations|] == activations;
    }

    // `interest`: prune, learn the call site, then add up the lists.
    method InterestIn(metadata: Metadata, now: nat) returns (interest: Interest)
      modifies `activations, `generation, `catalog
      ensures View() == old(View()).(activations := Live(old(activations), now))
      ensures catalog == if metadata in old(catalog) then old(catalog) else old(catalog) + [metadata]
      ensures activations == Sift(old(activations), HasTime(now))
      ensures interest == MaskOf(View(), metadata)
      ensures IsAskedBy(interest, View(), metadata)
      ensures generation == old(generation) + (if activations == old(activations) then 0 else 1)
    {
      PruneExpired(now);
      if metadata !in catalog {
        catalog := catalog + [metadata];
      }
      var mask := SinksAsk(metadata);
      var active := ActivationsAsk(metadata);
      interest := baseline.Union(mask.Union(active));
      MaskMeansAll(View(), metadata);
    }

    method ActiveInterest(metadata: Metadata, contexts: Contexts, context: ContextToken) returns (active: Interest)
      requires WellFormed(contexts)
      ensures active == ActivationsRefined(activations, contexts, metadata, context, here)
    {
      active := NOTHING;
      for i := 0 to |activations|
        invariant active == ActivationsRefined(activations[..i], contexts, metadata, context, here)
      {
        assert activations[..i + 1][..i] == activations[..i];
        if MatchesStatic(activations[i].filter, metadata, here) && MatchesContext(activations[i].filter, contexts, context) {
          active := active.Union(activations[i].interest);
        }
      }
      assert activations[..|activations|] == activations;
    }

    // `contextual_interest`: the current context decides which lists count.
    method ContextualInterest(metadata: Metadata, contexts: Contexts, context: ContextToken, now: nat)
      returns (interest: Interest)
      requires WellFormed(contexts)
      modifies `activations, `generation
      ensures View() == old(View()).(activations := Live(old(activations), now))
      ensures interest == RefinedMask(old(View()), contexts, metadata, context, now)
      ensures IsNeededBy(interest, old(View()), contexts, metadata, context, now)
    {
      RefinedMeansAll(View(), contexts, metadata, context, now);
      PruneExpired(now);
      var active := ActiveInterest(metadata, contexts, context);
      var mask := NOTHING;
      for i := 0 to |sinks|
        invariant mask == SinksRefined(sinks[..i], contexts, metadata, context, here)
      {
        assert sinks[..i + 1][..i] == sinks[..i];
        if MatchesStatic(sinks[i].filter, metadata, here) && MatchesContext(sinks[i].filter, contexts, context) {
          mask := mask.Union(SinkInterest(sinks[i].capability, sinks[i].detail));
        }
      }
      assert sinks[..|sinks|] == sinks;
      interest := baseline.Union(active).Union(mask);
    }

    // Hands one sink its projection, unless the event is not for it.
    method Deliver(sink: SinkRegistration, event: EventRef, contexts: Contexts, panicking: set<nat>)
      returns (delivery: seq<Delivery>)
      requires WellFormed(contexts)
      modifies `sinkPanics
      ensures delivery == ForSink(sink, contexts, event, here) && |delivery| <= 1
      ensures sinkPanics == old(sinkPanics) + (if delivery != [] && delivery[0].sink in panicking then 1 else 0)
    {
      if !Receives(sink, contexts, event, here) {
        return [];
      }
      delivery := [Delivery(sink.id, ProjectEvent(event, sink.capability, sink.detail))];
      if sink.id in panicking {
        sinkPanics := sinkPanics + 1;
      }
    }

    // `emit`: every receiving sink gets its projection, a panic in one does not keep
    // the event from the next, and an event raised by a sink is dropped.
    method Emit(event: EventRef, contexts: Contexts, panicking: set<nat>) returns (deliveries: seq<Delivery>)
      requires WellFormed(contexts)
      modifies `sinkPanics, `reentrantDropped, `inDispatch
      ensures deliveries == if old(inDispatch) then [] else Deliveries(sinks, contexts, event, here)
      ensures !old(inDispatch) ==> Reaches(deliveries, sinks, contexts, event, here)
      ensures sinkPanics == old(sinkPanics) + CountPanics(deliveries, panicking)
      ensures sinkPanics == old(sinkPanics) + |Sift(deliveries, IsToOneOf(panicking))|
      ensures reentrantDropped == old(reentrantDropped) + (if old(inDispatch) then 1 else 0)
      ensures inDispatch == old(inDispatch)
    {
      deliveries := [];
      if inDispatch {
        reentrantDropped := reentrantDropped + 1;
        return;
      }
      inDispatch := true;
      for i := 0 to |sinks|
        invariant deliveries == Deliveries(sinks[..i], contexts, event, here)
        invariant sinkPanics == old(sinkPanics) + CountPanics(deliveries, panicking)
        invariant reentrantDropped == old(reentrantDropped)
      {
        var delivery := Deliver(sinks[i], event, contexts, panicking);
        OneMoreSink(sinks, i, contexts, event, here);
        OneMorePanic(deliveries, delivery, panicking);
        deliveries := deliveries + delivery;
      }
      assert sinks[..|sinks|] == sinks;
      DeliveriesReach(sinks, contexts, event, here);
      PanicsMean(deliveries, panicking);
      inDispatch := false;
    }
  }
}
