// The runtime behind the dispatcher: selectors, registered sinks and activations,
// the interest they add up to, and the projection each sink is handed.

module Runtime {
  import opened Basics
  import opened Utf8
  import opened Facade
  import opened Interest
  import opened Lineage

  datatype Capability = RemoteSink | LocalRetained | TrustedEphemeral

  datatype DetailLevel = CoreOnly | Full

  datatype Target = Native | Wasm

  datatype Filter = Filter(
    domain: Option<Text>,
    eventName: Option<Text>,
    class_: Option<Class>,
    minimumSeverity: Option<Severity>,
    context: Option<ContextToken>,
    descendants: bool,
    target: Option<Target>)

  datatype Activation = Activation(filter: Filter, interest: Interest, expires: nat)

  datatype SinkRegistration = SinkRegistration(id: nat, capability: Capability, detail: DetailLevel, filter: Filter)

  // The registration lists an interest is computed from.
  datatype Config = Config(
    here: Target,
    baseline: Interest,
    sinks: seq<SinkRegistration>,
    activations: seq<Activation>)

  // ---- selectors ----

  const DOT: u8 := 46
  const COLON: u8 := 58

  predicate HierarchyMatches(value: Text, selector: Text) {
    || value == selector
    || (selector <= value
        && var suffix := value[|selector|..];
           (|suffix| >= 1 && suffix[0] == DOT) || (|suffix| >= 2 && suffix[0] == COLON && suffix[1] == COLON))
  }

  predicate DomainMatches(metadata: Metadata, selector: Text) {
    || (metadata.domain.Some? && HierarchyMatches(metadata.domain.value, selector))
    || HierarchyMatches(metadata.package, selector)
    || HierarchyMatches(metadata.target, selector)
    || HierarchyMatches(metadata.moduleName, selector)
  }

  function SeverityRank(s: Severity): nat {
    match s
    case Trace => 0
    case Debug => 1
    case Info => 2
    case Warn => 3
    case Error => 4
    case Critical => 5
  }

  predicate MatchesStatic(f: Filter, metadata: Metadata, here: Target) {
    && (f.target.Some? ==> f.target.value == here)
    && (f.domain.Some? ==> DomainMatches(metadata, f.domain.value))
    && (f.eventName.Some? ==> HierarchyMatches(metadata.eventName, f.eventName.value))
    && (f.class_.Some? ==> metadata.class_ == f.class_.value)
    && (f.minimumSeverity.Some? ==> SeverityRank(metadata.severity) >= SeverityRank(f.minimumSeverity.value))
  }

  predicate MatchesContext(f: Filter, contexts: Contexts, context: ContextToken)
    requires WellFormed(contexts)
  {
    f.context.None?
    || (if f.descendants then Descends(contexts, context, f.context.value) else context == f.context.value)
  }

  // ---- what a sink may see ----

  function SinkInterest(capability: Capability, detail: DetailLevel): Interest {
    var core := match capability
      case RemoteSink => NOTHING.(coreSupport := true)
      case LocalRetained => NOTHING.(coreSupport := true, coreLocal := true)
      case TrustedEphemeral => NOTHING.(coreSupport := true, coreLocal := true, coreSecret := true);
    if detail == CoreOnly then core
    else core.Union(match capability
      case RemoteSink => NOTHING.(detailSupport := true)
      case LocalRetained => NOTHING.(detailSupport := true, detailLocal := true)
      case TrustedEphemeral => NOTHING.(detailSupport := true, detailLocal := true, detailSecret := true))
  }

  predicate PrivacyAllowed(capability: Capability, privacy: Privacy) {
    match capability
    case RemoteSink => privacy == SupportSafe
    case LocalRetained => privacy != Secret
    case TrustedEphemeral => true
  }

  predicate Authorized(capability: Capability, level: DetailLevel, m: FieldMetadata) {
    PrivacyAllowed(capability, m.privacy) && (level == Full || m.detail == Core)
  }

  // A sink's interest asks for exactly the fields its projection keeps.
  lemma SinkInterestExact(capability: Capability, level: DetailLevel, m: FieldMetadata)
    ensures SinkInterest(capability, level).Wants(m.privacy, m.detail) <==> Authorized(capability, level, m)
  {
  }

  function ProjectFields(
      fields: seq<Option<FieldRef>>, capability: Capability, level: DetailLevel): (out: seq<ProjectedField>)
    ensures |out| <= |fields|
  {
    if fields == [] then []
    else
      var earlier := ProjectFields(fields[..|fields| - 1], capability, level);
      var last := fields[|fields| - 1];
      if last.Some? && Authorized(capability, level, last.value.metadata)
      then earlier + [ProjectedField(last.value.metadata.name, last.value.metadata.privacy,
                                     last.value.metadata.detail, last.value.value)]
      else earlier
  }

  function ProjectEvent(event: EventRef, capability: Capability, level: DetailLevel): ProjectedEvent {
    var fields := ProjectFields(event.fields, capability, level);
    ProjectedEvent(event.metadata, event.context, fields,
                   if capability == RemoteSink then None else event.message,
                   if |event.metadata.fields| >= |fields| then |event.metadata.fields| - |fields| else 0)
  }

  // ---- interest over the registration lists ----

  function SinksMask(sinks: seq<SinkRegistration>, metadata: Metadata, here: Target): Interest {
    if sinks == [] then NOTHING
    else
      var earlier := SinksMask(sinks[..|sinks| - 1], metadata, here);
      var last := sinks[|sinks| - 1];
      if !MatchesStatic(last.filter, metadata, here) then earlier
      else earlier.Union(
        if last.filter.context.Some? then ONLY_CONTEXTUAL else SinkInterest(last.capability, last.detail))
  }

  function ActivationsMask(activations: seq<Activation>, metadata: Metadata, here: Target): Interest {
    if activations == [] then NOTHING
    else
      var earlier := ActivationsMask(activations[..|activations| - 1], metadata, here);
      if MatchesStatic(activations[|activations| - 1].filter, metadata, here)
      then earlier.Union(ONLY_CONTEXTUAL) else earlier
  }

  function ListsMask(c: Config, metadata: Metadata): Interest {
    SinksMask(c.sinks, metadata, c.here).Union(ActivationsMask(c.activations, metadata, c.here))
  }

  // What `Runtime::interest` answers for the lists as they stand.
  function MaskOf(c: Config, metadata: Metadata): Interest {
    c.baseline.Union(ListsMask(c, metadata))
  }

  function Live(activations: seq<Activation>, now: nat): seq<Activation> {
    if activations == [] then []
    else
      var earlier := Live(activations[..|activations| - 1], now);
      if activations[|activations| - 1].expires > now then earlier + [activations[|activations| - 1]] else earlier
  }

  function SinksRefined(
      sinks: seq<SinkRegistration>, contexts: Contexts, metadata: Metadata, context: ContextToken, here: Target): Interest
    requires WellFormed(contexts)
  {
    if sinks == [] then NOTHING
    else
      var earlier := SinksRefined(sinks[..|sinks| - 1], contexts, metadata, context, here);
      var last := sinks[|sinks| - 1];
      if MatchesStatic(last.filter, metadata, here) && MatchesContext(last.filter, contexts, context)
      then earlier.Union(SinkInterest(last.capability, last.detail)) else earlier
  }

  function ActivationsRefined(
      activations: seq<Activation>, contexts: Contexts, metadata: Metadata, context: ContextToken, here: Target): Interest
    requires WellFormed(contexts)
  {
    if activations == [] then NOTHING
    else
      var earlier := ActivationsRefined(activations[..|activations| - 1], contexts, metadata, context, here);
      var last := activations[|activations| - 1];
      if MatchesStatic(last.filter, metadata, here) && MatchesContext(last.filter, contexts, context)
      then earlier.Union(last.interest) else earlier
  }

  // What `Runtime::contextual_interest` answers at time `now`.
  function RefinedMask(c: Config, contexts: Contexts, metadata: Metadata, context: ContextToken, now: nat): Interest
    requires WellFormed(contexts)
  {
    c.baseline
      .Union(ActivationsRefined(Live(c.activations, now), contexts, metadata, context, c.here))
      .Union(SinksRefined(c.sinks, contexts, metadata, context, c.here))
  }

  // ---- delivery ----

  datatype Delivery = Delivery(sink: nat, event: ProjectedEvent)

  predicate Receives(sink: SinkRegistration, contexts: Contexts, event: EventRef, here: Target)
    requires WellFormed(contexts)
  {
    && !(event.metadata.kind == AdHocText && sink.capability == RemoteSink)
    && MatchesStatic(sink.filter, event.metadata, here)
    && MatchesContext(sink.filter, contexts, event.context)
  }

  // What the sinks are handed, in registration order.
  function Deliveries(sinks: seq<SinkRegistration>, contexts: Contexts, event: EventRef, here: Target): seq<Delivery>
    requires WellFormed(contexts)
  {
    if sinks == [] then []
    else
      var earlier := Deliveries(sinks[..|sinks| - 1], contexts, event, here);
      var last := sinks[|sinks| - 1];
      if Receives(last, contexts, event, here)
      then earlier + [Delivery(last.id, ProjectEvent(event, last.capability, last.detail))] else earlier
  }
}
