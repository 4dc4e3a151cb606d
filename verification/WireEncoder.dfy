// The wire encoder: what an envelope means on the wire, the exact outcome of encoding
// it into a bounded buffer, and the in-place encoder that produces it.

module WireEncoder {
  import opened Basics
  import opened Utf8
  import opened Facade
  import opened WireFormat

  datatype EncodeError = BufferTooSmall | SchemaStringTooLong | TooManyFields | TooManyLinks

  datatype Identity = Identity(worker: u64, test: Option<Text>)

  datatype Envelope = Envelope(
    event: EventRef,
    sequence: u64,
    droppedBefore: u64,
    truncatedBefore: u64,
    omittedFields: u32,
    links: seq<ContextToken>,
    identity: Identity)

  datatype Encoded = Encoded(bytes: Bytes, truncatedValues: u32)

  // How much of a string value, and of formatted text, survives.
  datatype Limits = Limits(text: nat, formatted: nat)

  function LimitsOf(maxValueBytes: nat, scratch: nat): (l: Limits)
    ensures l.formatted <= l.text <= U16_MAX
  {
    var text := Min(maxValueBytes, U16_MAX);
    Limits(text, Min(scratch, text))
  }

  function SatAdd(a: u32, n: nat): u32 {
    Min(a + n, U32_MAX)
  }

  // ---- the wire image of an envelope ----

  predicate Retained(f: Option<FieldRef>) {
    f.Some? && f.value.metadata.privacy != Secret
  }

  function Kept(fields: seq<Option<FieldRef>>): (kept: seq<FieldRef>)
    ensures |kept| <= |fields|
    ensures forall f | f in kept :: f.metadata.privacy != Secret && Some(f) in fields
  {
    if fields == [] then []
    else
      var last := fields[|fields| - 1];
      Kept(fields[..|fields| - 1]) + (if Retained(last) then [last.value] else [])
  }

  // Nothing that may be sent is lost, and the order is the event's.
  lemma {:induction false} KeptInOrder(a: seq<Option<FieldRef>>, b: seq<Option<FieldRef>>)
    ensures Kept(a + b) == Kept(a) + Kept(b)
    decreases |b|
  {
    if b == [] {
      assert a + b == a;
    } else {
      var n := |b| - 1;
      KeptInOrder(a, b[..n]);
      var last: seq<FieldRef> := if Retained(b[n]) then [b[n].value] else [];
      SplitLast(a, b);
      assert Kept(a) + Kept(b[..n]) + last == Kept(a) + (Kept(b[..n]) + last);
    }
  }

  lemma SplitLast<T>(a: seq<T>, b: seq<T>)
    requires b != []
    ensures (a + b)[..|a + b| - 1] == a + b[..|b| - 1] && (a + b)[|a + b| - 1] == b[|b| - 1] && a + b != []
  {
  }

  function ImageOfValue(v: Value, l: Limits): WireValue {
    match v
    case BoolValue(b) => WireBool(b)
    case I64Value(i) => WireI64(i)
    case U64Value(u) => WireU64(u)
    case F64Value(f) => WireF64(f)
    case StrValue(t) => WireString(Clip(t, l.text))
    case DebugValue(f) => WireDebug(Clip(Written(f), l.formatted))
    case DisplayValue(f) => WireDisplay(Clip(Written(f), l.formatted))
  }

  function ImageOfField(f: FieldRef, l: Limits): WireField {
    WireField(f.metadata.name, f.metadata.privacy, f.metadata.detail, ImageOfValue(f.value, l))
  }

  function ImageOfFields(fields: seq<FieldRef>, l: Limits): (w: seq<WireField>)
    ensures |w| == |fields|
    ensures forall i | 0 <= i < |fields| :: w[i] == ImageOfField(fields[i], l)
  {
    if fields == [] then []
    else ImageOfFields(fields[..|fields| - 1], l) + [ImageOfField(fields[|fields| - 1], l)]
  }

  function ClipOptional(t: Option<Text>, limit: nat): Option<Text> {
    if t.None? then None else Some(Clip(t.value, limit))
  }

  function Message(m: Option<Format>): Option<Text> {
    if m.None? then None else Some(Written(m.value))
  }

  function OmittedFields(e: Envelope): u32 {
    var declared, kept := |e.event.metadata.fields|, |Kept(e.event.fields)|;
    SatAdd(e.omittedFields, Min(if declared >= kept then declared - kept else 0, U32_MAX))
  }

  function Image(e: Envelope, l: Limits, flags: u16, length: u32): Wire {
    var m := e.event.metadata;
    Wire(Head(flags, length, Counters(e.sequence, e.droppedBefore, e.truncatedBefore, e.identity.worker, e.event.context)),
         e.links,
         Classes(m.severity, m.class_, m.kind),
         Names(m.eventName, m.package, m.target, m.moduleName),
         Extras(m.domain, ClipOptional(e.identity.test, l.text), m.location),
         OmittedFields(e),
         ImageOfFields(Kept(e.event.fields), l),
         ClipOptional(Message(e.event.message), l.formatted))
  }

  // ---- how many values are cut ----

  function Cut(t: Option<Text>, limit: nat): nat {
    if t.Some? && |t.value| > limit then 1 else 0
  }

  function CutsInValue(v: Value, l: Limits): nat {
    match v
    case StrValue(t) => Cut(Some(t), l.text)
    case DebugValue(f) => Cut(Some(Written(f)), l.formatted)
    case DisplayValue(f) => Cut(Some(Written(f)), l.formatted)
    case _ => 0
  }

  function CutsInFields(fields: seq<FieldRef>, l: Limits): nat {
    if fields == [] then 0
    else CutsInFields(fields[..|fields| - 1], l) + CutsInValue(fields[|fields| - 1].value, l)
  }

  function Cuts(e: Envelope, l: Limits): nat {
    Cut(e.identity.test, l.text) + CutsInFields(Kept(e.event.fields), l) + Cut(Message(e.event.message), l.formatted)
  }

  // A field's value is counted exactly when its image differs from what it renders to.
  lemma CutsExact(v: Value, l: Limits)
    ensures CutsInValue(v, l) == 1 <==>
      Rendered(v).Some? && ImageOfValue(v, l).text != Rendered(v).value
  {
  }

  // ---- writing into a buffer of `cap` bytes ----

  type Writer = Result<Bytes, EncodeError>

  function Put(cap: nat, w: Writer, b: Bytes): Writer {
    if w.Err? then w
    else if |w.value| + |b| <= cap then Ok(w.value + b)
    else Err(BufferTooSmall)
  }

  // Two writes in a row are one.
  lemma PutTwice(cap: nat, w: Writer, a: Bytes, b: Bytes)
    ensures Put(cap, Put(cap, w, a), b) == Put(cap, w, a + b)
  {
    if w.Ok? {
      Assoc(w.value, a, b);
    }
  }

  function PutSchema(cap: nat, w: Writer, t: Text): Writer {
    if w.Err? then w
    else if !Short(t) then Err(SchemaStringTooLong)
    else Put(cap, w, PrintText(t))
  }

  function PutNames(cap: nat, w: Writer, n: Names): Writer {
    PutSchema(cap, PutSchema(cap, PutSchema(cap, PutSchema(cap, w, n.eventName), n.package), n.target), n.moduleName)
  }

  function PutDomain(cap: nat, w: Writer, t: Option<Text>): Writer {
    if t.None? then Put(cap, w, [0]) else PutSchema(cap, Put(cap, w, [1]), t.value)
  }

  function PutLocation(cap: nat, w: Writer, l: Option<Location>): Writer {
    if l.None? then Put(cap, w, [0])
    else
      Put(cap, PutSchema(cap, Put(cap, w, [1]), l.value.file), Le(4, l.value.line) + Le(4, l.value.column))
  }

  function PutLinks(cap: nat, w: Writer, links: seq<ContextToken>): Writer {
    if w.Err? then w
    else if |links| > U16_MAX then Err(TooManyLinks)
    else Put(cap, w, Le(2, |links|) + PrintMany(PrintToken, links))
  }

  function PutField(cap: nat, w: Writer, f: WireField): Writer {
    Put(cap, PutSchema(cap, w, f.name),
        [PrivacyByte(f.privacy)] + [DetailByte(f.detail)] + [ValueTag(f.value)] + PrintPayload(f.value))
  }

  function PutFields(cap: nat, w: Writer, fields: seq<WireField>): (r: Writer)
    ensures w.Err? ==> r == w
  {
    if fields == [] then w else PutField(cap, PutFields(cap, w, fields[..|fields| - 1]), fields[|fields| - 1])
  }

  function PutFieldCount(cap: nat, w: Writer, omitted: u32, count: nat): Writer {
    if w.Err? then w
    else if count > U16_MAX then Err(TooManyFields)
    else Put(cap, w, Le(4, omitted) + Le(2, count))
  }

  // Every write of one envelope, in order; flags and length are still zero.
  function PutFrame(cap: nat, w: Wire): Writer {
    var head := Put(cap, Ok([]), PrintHead(w.head));
    var links := PutLinks(cap, head, w.links);
    var classes := Put(cap, links, PrintClasses(w.classes));
    var names := PutNames(cap, classes, w.names);
    var domain := PutDomain(cap, names, w.extras.domain);
    var test := Put(cap, domain, PrintOptional(w.extras.test));
    var location := PutLocation(cap, test, w.extras.location);
    var count := PutFieldCount(cap, location, w.omitted, |w.fields|);
    var fields := PutFields(cap, count, w.fields);
    Put(cap, fields, PrintOptional(w.message))
  }

  function Patch(s: Bytes, flags: u16, length: u32): Bytes
    requires |s| >= 12
  {
    s[..6] + Le(2, flags) + Le(4, length) + s[12..]
  }

  function Flags(cuts: nat): u16 {
    if cuts != 0 then FLAG_TRUNCATED else 0
  }

  // Flags and length are patched in, if the length fits its field.
  function Seal(w: Writer, cuts: u32): Result<Encoded, EncodeError>
    requires w.Ok? ==> |w.value| >= 12
  {
    if w.Err? then Err(w.error)
    else if |w.value| > U32_MAX then Err(BufferTooSmall)
    else Ok(Encoded(Patch(w.value, Flags(cuts), |w.value|), cuts))
  }

  // The outcome of encoding an envelope, error by error.
  function Encoding(e: Envelope, l: Limits, cap: nat): Result<Encoded, EncodeError> {
    HeadIsWritten(cap, Image(e, l, 0, 0));
    Seal(PutFrame(cap, Image(e, l, 0, 0)), SatAdd(0, Cuts(e, l)))
  }

  // ---- a write appends what the format prints, or refuses it ----

  // From `w`, the bytes `b` were appended if they were acceptable and fitted.
  ghost predicate Appends(cap: nat, w: Writer, r: Writer, ok: bool, refusal: EncodeError, b: Bytes) {
    match w
    case Err(_) => r == w
    case Ok(s) =>
      if |s| + |b| <= cap then r == (if ok then Ok(s + b) else Err(refusal))
      else r == Err(BufferTooSmall) || (!ok && r == Err(refusal))
  }

  lemma AppendsBoth(cap: nat, w: Writer, v: Writer, r: Writer, ok: bool, ok': bool, refusal: EncodeError, b: Bytes, b': Bytes)
    requires Appends(cap, w, v, ok, refusal, b) && Appends(cap, v, r, ok', refusal, b')
    ensures Appends(cap, w, r, ok && ok', refusal, b + b')
  {
    if w.Ok? {
      Assoc(w.value, b, b');
    }
  }

  lemma PutAppends(cap: nat, w: Writer, b: Bytes, refusal: EncodeError)
    ensures Appends(cap, w, Put(cap, w, b), true, refusal, b)
  {
  }

  lemma SchemaAppends(cap: nat, w: Writer, t: Text)
    ensures Appends(cap, w, PutSchema(cap, w, t), Short(t), SchemaStringTooLong, PrintText(t))
  {
  }

  lemma NamesAppend(cap: nat, w: Writer, n: Names)
    ensures Appends(cap, w, PutNames(cap, w, n), NamesFit(n), SchemaStringTooLong, PrintNames(n))
  {
    var a := PutSchema(cap, w, n.eventName);
    var b := PutSchema(cap, a, n.package);
    var c := PutSchema(cap, b, n.target);
    SchemaAppends(cap, w, n.eventName);
    SchemaAppends(cap, a, n.package);
    SchemaAppends(cap, b, n.target);
    SchemaAppends(cap, c, n.moduleName);
    var x := PrintText(n.eventName) + PrintText(n.package);
    AppendsBoth(cap, w, a, b, Short(n.eventName), Short(n.package), SchemaStringTooLong,
                PrintText(n.eventName), PrintText(n.package));
    AppendsBoth(cap, w, b, c, Short(n.eventName) && Short(n.package), Short(n.target), SchemaStringTooLong,
                x, PrintText(n.target));
    AppendsBoth(cap, w, c, PutSchema(cap, c, n.moduleName),
                Short(n.eventName) && Short(n.package) && Short(n.target), Short(n.moduleName), SchemaStringTooLong,
                x + PrintText(n.target), PrintText(n.moduleName));
  }

  lemma DomainAppends(cap: nat, w: Writer, t: Option<Text>)
    ensures Appends(cap, w, PutDomain(cap, w, t), ShortOptional(t), SchemaStringTooLong, PrintOptional(t))
  {
    if t.Some? {
      var tagged := Put(cap, w, [1]);
      PutAppends(cap, w, [1], SchemaStringTooLong);
      SchemaAppends(cap, tagged, t.value);
      AppendsBoth(cap, w, tagged, PutDomain(cap, w, t), true, Short(t.value), SchemaStringTooLong, [1], PrintText(t.value));
    }
  }

  lemma LocationAppends(cap: nat, w: Writer, l: Option<Location>)
    ensures Appends(cap, w, PutLocation(cap, w, l), LocationFits(l), SchemaStringTooLong, PrintLocation(l))
  {
    if l.Some? {
      var tagged := Put(cap, w, [1]);
      var file := PutSchema(cap, tagged, l.value.file);
      var a, b, c := PrintText(l.value.file), Le(4, l.value.line), Le(4, l.value.column);
      PutAppends(cap, w, [1], SchemaStringTooLong);
      SchemaAppends(cap, tagged, l.value.file);
      AppendsBoth(cap, w, tagged, file, true, Short(l.value.file), SchemaStringTooLong, [1], a);
      PutAppends(cap, file, b + c, SchemaStringTooLong);
      AppendsBoth(cap, w, file, PutLocation(cap, w, l), Short(l.value.file), true, SchemaStringTooLong, [1] + a, b + c);
      Assoc([1] + a, b, c);
    }
  }

  lemma FieldAppends(cap: nat, w: Writer, f: WireField)
    ensures Appends(cap, w, PutField(cap, w, f), Short(f.name), SchemaStringTooLong, PrintField(f))
  {
    var name := PutSchema(cap, w, f.name);
    var a, p, d, v := PrintText(f.name), [PrivacyByte(f.privacy)], [DetailByte(f.detail)], [ValueTag(f.value)];
    var y := PrintPayload(f.value);
    SchemaAppends(cap, w, f.name);
    PutAppends(cap, name, p + d + v + y, SchemaStringTooLong);
    AppendsBoth(cap, w, name, PutField(cap, w, f), Short(f.name), true, SchemaStringTooLong, a, p + d + v + y);
    Assoc(a, p, d);
    Assoc(a, p + d, v);
    Assoc(a, p + d + v, y);
  }

  predicate FieldNamesFit(fields: seq<WireField>) {
    forall f | f in fields :: Short(f.name)
  }

  lemma {:induction false} FieldsAppend(cap: nat, w: Writer, fields: seq<WireField>)
    requires w.Ok? ==> |w.value| <= cap
    ensures Appends(cap, w, PutFields(cap, w, fields), FieldNamesFit(fields), SchemaStringTooLong, PrintMany(PrintField, fields))
  {
    if fields == [] {
      PutAppends(cap, w, [], SchemaStringTooLong);
      if w.Ok? {
        assert w.value + [] == w.value;
      }
    } else {
      var n := |fields| - 1;
      var earlier := PutFields(cap, w, fields[..n]);
      FieldsAppend(cap, w, fields[..n]);
      FieldAppends(cap, earlier, fields[n]);
      AppendsBoth(cap, w, earlier, PutFields(cap, w, fields), FieldNamesFit(fields[..n]), Short(fields[n].name),
                  SchemaStringTooLong, PrintMany(PrintField, fields[..n]), PrintField(fields[n]));
      NamesSplit(fields, n);
    }
  }

  lemma NamesSplit(fields: seq<WireField>, n: nat)
    requires |fields| == n + 1
    ensures FieldNamesFit(fields) <==> FieldNamesFit(fields[..n]) && Short(fields[n].name)
  {
    assert fields == fields[..n] + [fields[n]];
  }

  predicate SchemaFits(w: Wire) {
    NamesFit(w.names) && ShortOptional(w.extras.domain) && LocationFits(w.extras.location)
  }

  // What refuses a frame that would fit the buffer: the first of these, in this order.
  function Refusal(w: Wire): Option<EncodeError> {
    if |w.links| > U16_MAX then Some(TooManyLinks)
    else if !SchemaFits(w) then Some(SchemaStringTooLong)
    else if |w.fields| > U16_MAX then Some(TooManyFields)
    else if !FieldNamesFit(w.fields) then Some(SchemaStringTooLong)
    else None
  }

  // The frame as the encoder lays it down, section after section.
  function Sections(w: Wire): Bytes {
    PrintHead(w.head)
    + (Le(2, |w.links|) + PrintMany(PrintToken, w.links))
    + PrintClasses(w.classes) + PrintNames(w.names)
    + PrintOptional(w.extras.domain) + PrintOptional(w.extras.test) + PrintLocation(w.extras.location)
    + (Le(4, w.omitted) + Le(2, |w.fields|)) + PrintMany(PrintField, w.fields) + PrintOptional(w.message)
  }

  lemma SectionsAreTheFrame(w: Wire)
    ensures Sections(w) == Print(w)
  {
    var h, n, m := PrintHead(w.head), Le(2, |w.links|), PrintMany(PrintToken, w.links);
    var c, a := PrintClasses(w.classes), PrintNames(w.names);
    var d, t, l := PrintOptional(w.extras.domain), PrintOptional(w.extras.test), PrintLocation(w.extras.location);
    var o, k, f, g := Le(4, w.omitted), Le(2, |w.fields|), PrintMany(PrintField, w.fields), PrintOptional(w.message);
    var start := h + (n + m) + c + a;
    assert Sections(w) == start + PrintExtras(w.extras) + PrintContents(w) by {
      Assoc(start, d, t);
      Assoc(start, d + t, l);
      Assoc(start + (d + t + l), o + k, f);
      Assoc(start + (d + t + l), o + k + f, g);
    }
    Assoc(h, n + m, c);
    Assoc(h, n + m + c, a);
    Assoc(h, n + m + c + a, PrintExtras(w.extras));
    Assoc(h, n + m + c + a + PrintExtras(w.extras), PrintContents(w));
  }

  // Where the encoder stands after sections that print `printed`, the first refused of
  // which, if any, was refused with `refusal`.
  ghost predicate Stands(cap: nat, r: Writer, refusal: Option<EncodeError>, printed: Bytes) {
    if |printed| <= cap then r == (if refusal.None? then Ok(printed) else Err(refusal.value))
    else r.Err? && (refusal.None? ==> r == Err(BufferTooSmall))
  }

  function OrElse(first: Option<EncodeError>, ok: bool, next: EncodeError): Option<EncodeError> {
    if first.Some? then first else if ok then None else Some(next)
  }

  lemma StandsFurther(
      cap: nat, w: Writer, refusal: Option<EncodeError>, printed: Bytes, r: Writer, ok: bool, next: EncodeError, b: Bytes)
    requires Stands(cap, w, refusal, printed) && Appends(cap, w, r, ok, next, b)
    ensures Stands(cap, r, OrElse(refusal, ok, next), printed + b)
  {
  }

  // The sections up to the schema's names.
  lemma StartOutcome(cap: nat, w: Wire)
    ensures var head := Put(cap, Ok([]), PrintHead(w.head));
      var classes := Put(cap, PutLinks(cap, head, w.links), PrintClasses(w.classes));
      Stands(cap, PutNames(cap, classes, w.names),
             OrElse(OrElse(None, |w.links| <= U16_MAX, TooManyLinks), NamesFit(w.names), SchemaStringTooLong),
             PrintHead(w.head) + (Le(2, |w.links|) + PrintMany(PrintToken, w.links))
             + PrintClasses(w.classes) + PrintNames(w.names))
  {
    var head := Put(cap, Ok([]), PrintHead(w.head));
    var links := PutLinks(cap, head, w.links);
    var classes := Put(cap, links, PrintClasses(w.classes));
    var p0 := PrintHead(w.head);
    var p1 := p0 + (Le(2, |w.links|) + PrintMany(PrintToken, w.links));
    var r1 := OrElse(None, |w.links| <= U16_MAX, TooManyLinks);
    assert Stands(cap, head, None, p0) by { assert [] + p0 == p0; }
    StandsFurther(cap, head, None, p0, links, |w.links| <= U16_MAX, TooManyLinks,
                  Le(2, |w.links|) + PrintMany(PrintToken, w.links));
    StandsFurther(cap, links, r1, p1, classes, true, SchemaStringTooLong, PrintClasses(w.classes));
    NamesAppend(cap, classes, w.names);
    StandsFurther(cap, classes, r1, p1 + PrintClasses(w.classes), PutNames(cap, classes, w.names), NamesFit(w.names),
                  SchemaStringTooLong, PrintNames(w.names));
  }

  // Encoding the whole frame: it is refused for the first reason that applies, and
  // otherwise succeeds exactly when what the format prints fits.
  lemma FrameOutcome(cap: nat, w: Wire)
    ensures Stands(cap, PutFrame(cap, w), Refusal(w), Print(w))
  {
    SectionsAreTheFrame(w);
    StartOutcome(cap, w);
    var links := PutLinks(cap, Put(cap, Ok([]), PrintHead(w.head)), w.links);
    var names := PutNames(cap, Put(cap, links, PrintClasses(w.classes)), w.names);
    RestOutcome(cap, w, names, OrElse(OrElse(None, |w.links| <= U16_MAX, TooManyLinks), NamesFit(w.names), SchemaStringTooLong),
                PrintHead(w.head) + (Le(2, |w.links|) + PrintMany(PrintToken, w.links))
                + PrintClasses(w.classes) + PrintNames(w.names));
  }

  lemma HeadIsWritten(cap: nat, w: Wire)
    ensures PutFrame(cap, w).Ok? ==> |PutFrame(cap, w).value| >= 12
  {
    FrameOutcome(cap, w);
    FrameIsLong(w);
  }

  lemma FrameIsLong(w: Wire)
    ensures |Print(w)| >= 12
  {
  }

  lemma RestOutcome(cap: nat, w: Wire, names: Writer, refusal: Option<EncodeError>, printed: Bytes)
    requires Stands(cap, names, refusal, printed)
    ensures var domain := PutDomain(cap, names, w.extras.domain);
      var test := Put(cap, domain, PrintOptional(w.extras.test));
      var location := PutLocation(cap, test, w.extras.location);
      var count := PutFieldCount(cap, location, w.omitted, |w.fields|);
      var fields := PutFields(cap, count, w.fields);
      var r1 := OrElse(refusal, ShortOptional(w.extras.domain), SchemaStringTooLong);
      var r2 := OrElse(r1, LocationFits(w.extras.location), SchemaStringTooLong);
      var r3 := OrElse(r2, |w.fields| <= U16_MAX, TooManyFields);
      Stands(cap, Put(cap, fields, PrintOptional(w.message)), OrElse(r3, FieldNamesFit(w.fields), SchemaStringTooLong),
             printed + PrintOptional(w.extras.domain) + PrintOptional(w.extras.test) + PrintLocation(w.extras.location)
             + (Le(4, w.omitted) + Le(2, |w.fields|)) + PrintMany(PrintField, w.fields) + PrintOptional(w.message))
  {
    var domain := PutDomain(cap, names, w.extras.domain);
    var test := Put(cap, domain, PrintOptional(w.extras.test));
    var location := PutLocation(cap, test, w.extras.location);
    var count := PutFieldCount(cap, location, w.omitted, |w.fields|);
    var fields := PutFields(cap, count, w.fields);
    var r1 := OrElse(refusal, ShortOptional(w.extras.domain), SchemaStringTooLong);
    var r2 := OrElse(r1, LocationFits(w.extras.location), SchemaStringTooLong);
    var r3 := OrElse(r2, |w.fields| <= U16_MAX, TooManyFields);
    var r4 := OrElse(r3, FieldNamesFit(w.fields), SchemaStringTooLong);
    var p1 := printed + PrintOptional(w.extras.domain);
    var p2 := p1 + PrintOptional(w.extras.test);
    var p3 := p2 + PrintLocation(w.extras.location);
    var p4 := p3 + (Le(4, w.omitted) + Le(2, |w.fields|));
    var p5 := p4 + PrintMany(PrintField, w.fields);
    DomainAppends(cap, names, w.extras.domain);
    StandsFurther(cap, names, refusal, printed, domain, ShortOptional(w.extras.domain), SchemaStringTooLong,
                  PrintOptional(w.extras.domain));
    StandsFurther(cap, domain, r1, p1, test, true, SchemaStringTooLong, PrintOptional(w.extras.test));
    LocationAppends(cap, test, w.extras.location);
    StandsFurther(cap, test, r1, p2, location, LocationFits(w.extras.location), SchemaStringTooLong,
                  PrintLocation(w.extras.location));
    StandsFurther(cap, location, r2, p3, count, |w.fields| <= U16_MAX, TooManyFields, Le(4, w.omitted) + Le(2, |w.fields|));
    FieldsAppend(cap, count, w.fields);
    StandsFurther(cap, count, r3, p4, fields, FieldNamesFit(w.fields), SchemaStringTooLong, PrintMany(PrintField, w.fields));
    StandsFurther(cap, fields, r4, p5, Put(cap, fields, PrintOptional(w.message)), true, SchemaStringTooLong,
                  PrintOptional(w.message));
  }
}
