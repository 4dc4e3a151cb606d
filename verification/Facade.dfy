// The facade's vocabulary: static metadata, borrowed events, the projected view
// a sink is handed, and the owned copy a retaining sink keeps.

module Facade {
  import opened Basics
  import opened Utf8

  datatype Severity = Trace | Debug | Info | Warn | Error | Critical
  datatype Class = Operational | Diagnostic | Forensic | Performance | Metric
  datatype Kind = Event | AdHocText | Span | Counter | Measurement
  datatype Privacy = SupportSafe | LocalOnly | Secret
  datatype Detail = Core | Deferred

  datatype FieldMetadata = FieldMetadata(name: Text, privacy: Privacy, detail: Detail)

  datatype Location = Location(file: Text, line: u32, column: u32)

  datatype Metadata = Metadata(
    eventName: Text,
    package: Text,
    target: Text,
    moduleName: Text,
    domain: Option<Text>,
    severity: Severity,
    class_: Class,
    kind: Kind,
    location: Option<Location>,
    fields: seq<FieldMetadata>)

  // The id and flag words; id 0 is the "no context" token.
  datatype ContextToken = ContextToken(id: u64, flags: u64) {
    predicate IsNone() {
      id == 0
    }
  }

  const NO_CONTEXT := ContextToken(0, 0)

  // A formatter is represented by the strings it writes, in order.
  type Format = seq<Text>

  function Written(f: Format): Text {
    if f == [] then []
    else
      ConcatValid(f[0], Written(f[1..]));
      f[0] + Written(f[1..])
  }

  // Floats are carried as their 64-bit pattern, signed integers as the pattern
  // `value as u64` produces.
  datatype Value =
    | BoolValue(flag: bool)
    | I64Value(signed: u64)
    | U64Value(unsigned: u64)
    | F64Value(bits: u64)
    | StrValue(text: Text)
    | DebugValue(debug: Format)
    | DisplayValue(display: Format)

  datatype FieldRef = FieldRef(metadata: FieldMetadata, value: Value)

  datatype EventRef = EventRef(
    metadata: Metadata,
    context: ContextToken,
    fields: seq<Option<FieldRef>>,
    message: Option<Format>)

  datatype ProjectedField = ProjectedField(name: Text, privacy: Privacy, detail: Detail, value: Value)

  datatype ProjectedEvent = ProjectedEvent(
    metadata: Metadata,
    context: ContextToken,
    fields: seq<ProjectedField>,
    message: Option<Format>,
    omittedFields: nat)

  datatype OwnedValue =
    | OwnedBool(flag: bool)
    | OwnedI64(signed: u64)
    | OwnedU64(unsigned: u64)
    | OwnedF64(bits: u64)
    | OwnedString(text: Text)

  datatype OwnedField = OwnedField(name: Text, privacy: Privacy, detail: Detail, value: OwnedValue)

  datatype OwnedEvent = OwnedEvent(
    metadata: Metadata,
    context: ContextToken,
    fields: seq<OwnedField>,
    message: Option<Text>,
    omittedFields: nat,
    truncatedFields: nat)

  // The text a value would be stored as, before any limit; None for scalars.
  function Rendered(v: Value): Option<Text> {
    match v
    case StrValue(t) => Some(t)
    case DebugValue(f) => Some(Written(f))
    case DisplayValue(f) => Some(Written(f))
    case _ => None
  }

  predicate IsCut(v: Value, limit: nat) {
    Rendered(v).Some? && |Rendered(v).value| > limit
  }

  // What is kept of a value: scalars as they are, texts as the longest prefix that fits.
  ghost predicate OwnsValue(o: OwnedValue, v: Value, limit: nat) {
    match v
    case BoolValue(b) => o == OwnedBool(b)
    case I64Value(i) => o == OwnedI64(i)
    case U64Value(u) => o == OwnedU64(u)
    case F64Value(f) => o == OwnedF64(f)
    case StrValue(t) => o.OwnedString? && IsLongestPrefix(t, limit, o.text)
    case DebugValue(f) => o.OwnedString? && IsLongestPrefix(Written(f), limit, o.text)
    case DisplayValue(f) => o.OwnedString? && IsLongestPrefix(Written(f), limit, o.text)
  }

  function OwnValue(v: Value, limit: nat): (o: OwnedValue)
    ensures OwnsValue(o, v, limit)
    ensures o.OwnedString? <==> Rendered(v).Some?
    ensures o.OwnedString? ==> IsLongestPrefix(Rendered(v).value, limit, o.text)
    ensures IsCut(v, limit) <==> o.OwnedString? && o.text != Rendered(v).value
  {
    match v
    case BoolValue(b) => OwnedBool(b)
    case I64Value(i) => OwnedI64(i)
    case U64Value(u) => OwnedU64(u)
    case F64Value(f) => OwnedF64(f)
    case _ => OwnedString(Clip(Rendered(v).value, limit))
  }

  ghost predicate OwnsField(o: OwnedField, f: ProjectedField, limit: nat) {
    o.name == f.name && o.privacy == f.privacy && o.detail == f.detail && OwnsValue(o.value, f.value, limit)
  }

  function OwnField(f: ProjectedField, limit: nat): OwnedField {
    OwnedField(f.name, f.privacy, f.detail, OwnValue(f.value, limit))
  }

  // How many of the fields have text that does not fit.
  function CountCut(fields: seq<ProjectedField>, limit: nat): nat {
    if fields == [] then 0
    else CountCut(fields[..|fields| - 1], limit) + (if IsCut(fields[|fields| - 1].value, limit) then 1 else 0)
  }

  method CopyFields(fields: seq<ProjectedField>, limit: nat) returns (owned: seq<OwnedField>, truncated: nat)
    ensures |owned| == |fields|
    ensures forall i | 0 <= i < |fields| :: owned[i] == OwnField(fields[i], limit)
    ensures truncated == CountCut(fields, limit)
  {
    owned := [];
    truncated := 0;
    for i := 0 to |fields|
      invariant |owned| == i
      invariant forall j | 0 <= j < i :: owned[j] == OwnField(fields[j], limit)
      invariant truncated == CountCut(fields[..i], limit)
    {
      assert fields[..i + 1][..i] == fields[..i];
      owned := owned + [OwnField(fields[i], limit)];
      if IsCut(fields[i].value, limit) {
        truncated := truncated + 1;
      }
    }
    assert fields[..|fields|] == fields;
  }

  // Text was lost on the way from `v` to `o`.
  predicate Lost(o: OwnedValue, v: Value) {
    match v
    case StrValue(t) => o != OwnedString(t)
    case DebugValue(f) => o != OwnedString(Written(f))
    case DisplayValue(f) => o != OwnedString(Written(f))
    case _ => false
  }

  function CountLost(owned: seq<OwnedField>, fields: seq<ProjectedField>): nat
    requires |owned| == |fields|
  {
    if fields == [] then 0
    else
      var n := |fields| - 1;
      CountLost(owned[..n], fields[..n]) + if Lost(owned[n].value, fields[n].value) then 1 else 0
  }

  lemma {:induction false} CutIsLost(owned: seq<OwnedField>, fields: seq<ProjectedField>, limit: nat)
    requires |owned| == |fields| && forall i :: 0 <= i < |fields| ==> owned[i] == OwnField(fields[i], limit)
    ensures CountCut(fields, limit) == CountLost(owned, fields)
  {
    if fields != [] {
      var n := |fields| - 1;
      CutIsLost(owned[..n], fields[..n], limit);
      assert owned[n].value == OwnValue(fields[n].value, limit);
    }
  }

  // What is kept of an event: everything but over-long text as it is, in order, and
  // every text that lost something counted once.
  ghost predicate OwnsEvent(owned: OwnedEvent, event: ProjectedEvent, limit: nat) {
    && owned.metadata == event.metadata && owned.context == event.context
    && owned.omittedFields == event.omittedFields
    && |owned.fields| == |event.fields|
    && (forall i :: 0 <= i < |event.fields| ==> OwnsField(owned.fields[i], event.fields[i], limit))
    && (owned.message.Some? <==> event.message.Some?)
    && (event.message.Some? ==> IsLongestPrefix(Written(event.message.value), limit, owned.message.value))
    && owned.truncatedFields == CountLost(owned.fields, event.fields)
         + (if event.message.Some? && owned.message != Some(Written(event.message.value)) then 1 else 0)
  }

  // The owned copy of an event: nothing but over-long text changes, and every
  // shortened text is counted once.
  function OwnedCopy(event: ProjectedEvent, limit: nat): (owned: OwnedEvent)
    ensures owned.message.Some? <==> event.message.Some?
    ensures owned.message.Some? ==> IsLongestPrefix(Written(event.message.value), limit, owned.message.value)
  {
    OwnedEvent(event.metadata, event.context,
               seq(|event.fields|, i requires 0 <= i < |event.fields| => OwnField(event.fields[i], limit)),
               if event.message.None? then None else Some(Clip(Written(event.message.value), limit)),
               event.omittedFields,
               CountCut(event.fields, limit)
               + (if event.message.Some? && |Written(event.message.value)| > limit then 1 else 0))
  }

  lemma OwnedCopyOwns(event: ProjectedEvent, limit: nat)
    ensures OwnsEvent(OwnedCopy(event, limit), event, limit)
  {
    var owned := OwnedCopy(event, limit).fields;
    CutIsLost(owned, event.fields, limit);
    forall i | 0 <= i < |event.fields| ensures OwnsField(owned[i], event.fields[i], limit) {
      assert owned[i] == OwnField(event.fields[i], limit);
    }
  }

  // `OwnedProjectedEvent::copy_from`: one pass over the fields, then the message.
  method CopyFrom(event: ProjectedEvent, limit: nat) returns (owned: OwnedEvent)
    ensures owned == OwnedCopy(event, limit) && OwnsEvent(owned, event, limit)
  {
    OwnedCopyOwns(event, limit);
    var fields, truncated := CopyFields(event.fields, limit);
    var message := None;
    if event.message.Some? {
      var text := Written(event.message.value);
      if |text| <= limit {
        message := Some(text);
      } else {
        var boundary := FloorBoundary(text, limit);
        message := Some(text[..boundary]);
        truncated := truncated + 1;
      }
    }
    owned := OwnedEvent(event.metadata, event.context, fields, message, event.omittedFields, truncated);
  }
}
