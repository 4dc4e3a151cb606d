// What an encoded envelope tells its reader, said of the envelope itself: which of its
// parts are on the wire, how its texts are shortened, and how much was lost.

module WireMeaning {
  import opened Basics
  import opened Utf8
  import opened Facade
  import opened WireFormat
  import opened WireEncoder

  // ---- what is told ----

  predicate IsSendable(f: Option<FieldRef>) {
    f.Some? && (f.value.metadata.privacy == SupportSafe || f.value.metadata.privacy == LocalOnly)
  }

  lemma {:induction false} KeptAreSendable(fields: seq<Option<FieldRef>>)
    ensures var sent := Sift(fields, IsSendable);
      |Kept(fields)| == |sent| && forall i :: 0 <= i < |sent| ==> sent[i] == Some(Kept(fields)[i])
  {
    if fields != [] {
      KeptAreSendable(fields[..|fields| - 1]);
    }
  }

  // Scalars are told as they are, texts as their longest prefix within the limit of
  // their kind: `text` for strings, `formatted` for what is rendered.
  ghost predicate TellsValue(w: WireValue, v: Value, text: nat, formatted: nat) {
    match v
    case BoolValue(b) => w == WireBool(b)
    case I64Value(i) => w == WireI64(i)
    case U64Value(u) => w == WireU64(u)
    case F64Value(f) => w == WireF64(f)
    case StrValue(t) => w.WireString? && IsLongestPrefix(t, text, w.text)
    case DebugValue(f) => w.WireDebug? && IsLongestPrefix(Written(f), formatted, w.text)
    case DisplayValue(f) => w.WireDisplay? && IsLongestPrefix(Written(f), formatted, w.text)
  }

  ghost predicate TellsField(w: WireField, f: FieldRef, text: nat, formatted: nat) {
    && w.name == f.metadata.name && w.privacy == f.metadata.privacy && w.detail == f.metadata.detail
    && TellsValue(w.value, f.value, text, formatted)
  }

  predicate TellsCounters(c: Counters, e: Envelope) {
    && c.sequence == e.sequence && c.droppedBefore == e.droppedBefore && c.truncatedBefore == e.truncatedBefore
    && c.worker == e.identity.worker && c.context == e.event.context
  }

  predicate TellsSchema(w: Wire, m: Metadata) {
    && w.classes.severity == m.severity && w.classes.class_ == m.class_ && w.classes.kind == m.kind
    && w.names.eventName == m.eventName && w.names.package == m.package
    && w.names.target == m.target && w.names.moduleName == m.moduleName
    && w.extras.domain == m.domain && w.extras.location == m.location
  }

  ghost predicate TellsFields(w: Wire, e: Envelope, text: nat, formatted: nat) {
    var sent := Sift(e.event.fields, IsSendable);
    && |w.fields| == |sent|
    && (forall i :: 0 <= i < |sent| ==> sent[i].Some? && TellsField(w.fields[i], sent[i].value, text, formatted))
    && w.omitted == Min(e.omittedFields + (Max(|e.event.metadata.fields|, |sent|) - |sent|), 0xFFFF_FFFF)
  }

  ghost predicate TellsTexts(w: Wire, e: Envelope, text: nat, formatted: nat) {
    && (w.extras.test.Some? <==> e.identity.test.Some?)
    && (e.identity.test.Some? ==> IsLongestPrefix(e.identity.test.value, text, w.extras.test.value))
    && (w.message.Some? <==> e.event.message.Some?)
    && (e.event.message.Some? ==> IsLongestPrefix(Written(e.event.message.value), formatted, w.message.value))
  }

  // A frame for an envelope, with texts limited to `maxValueBytes` and to what a length
  // field can say, and rendered ones to the scratch buffer too.
  ghost predicate Tells(w: Wire, e: Envelope, maxValueBytes: nat, scratch: nat) {
    var text := Min(maxValueBytes, 0xFFFF);
    var formatted := Min(scratch, text);
    && TellsCounters(w.head.counters, e) && w.links == e.links && TellsSchema(w, e.event.metadata)
    && TellsFields(w, e, text, formatted) && TellsTexts(w, e, text, formatted)
  }

  // ---- what was lost ----

  predicate LostIn(w: WireValue, v: Value) {
    match v
    case StrValue(t) => w != WireString(t)
    case DebugValue(f) => w != WireDebug(Written(f))
    case DisplayValue(f) => w != WireDisplay(Written(f))
    case _ => false
  }

  function LostInFields(fields: seq<WireField>, sent: seq<Option<FieldRef>>): nat
    requires |fields| == |sent|
  {
    if sent == [] then 0
    else
      var n := |sent| - 1;
      LostInFields(fields[..n], sent[..n])
      + (if sent[n].Some? && LostIn(fields[n].value, sent[n].value.value) then 1 else 0)
  }

  // The number of texts that are shorter in the frame than in the envelope.
  function Lost(w: Wire, e: Envelope): nat {
    var sent := Sift(e.event.fields, IsSendable);
    (if w.extras.test != e.identity.test then 1 else 0)
    + (if |w.fields| == |sent| then LostInFields(w.fields, sent) else 0)
    + (if e.event.message.Some? && w.message != Some(Written(e.event.message.value)) then 1 else 0)
  }

  lemma CutIsLost(f: FieldRef, l: Limits)
    ensures CutsInValue(f.value, l) == if LostIn(ImageOfValue(f.value, l), f.value) then 1 else 0
  {
    CutsExact(f.value, l);
  }

  lemma {:induction false} CutsAreLost(kept: seq<FieldRef>, sent: seq<Option<FieldRef>>, l: Limits)
    requires |kept| == |sent| && forall i :: 0 <= i < |sent| ==> sent[i] == Some(kept[i])
    ensures CutsInFields(kept, l) == LostInFields(ImageOfFields(kept, l), sent)
  {
    if kept != [] {
      var n := |kept| - 1;
      CutsAreLost(kept[..n], sent[..n], l);
      CutIsLost(kept[n], l);
      assert ImageOfFields(kept, l)[..n] == ImageOfFields(kept[..n], l);
    }
  }

  lemma ImageLoses(e: Envelope, l: Limits, flags: u16, length: u32)
    ensures Cuts(e, l) == Lost(Image(e, l, flags, length), e)
  {
    KeptAreSendable(e.event.fields);
    CutsAreLost(Kept(e.event.fields), Sift(e.event.fields, IsSendable), l);
  }

  // ---- the image of an envelope tells it ----

  lemma ImageTellsFields(e: Envelope, l: Limits, flags: u16, length: u32)
    ensures TellsFields(Image(e, l, flags, length), e, l.text, l.formatted)
  {
    KeptAreSendable(e.event.fields);
    var kept, w := Kept(e.event.fields), Image(e, l, flags, length);
    forall i | 0 <= i < |kept| ensures TellsField(w.fields[i], kept[i], l.text, l.formatted) {
      assert w.fields[i] == ImageOfField(kept[i], l);
    }
  }

  lemma ImageTells(e: Envelope, maxValueBytes: nat, scratch: nat, flags: u16, length: u32)
    ensures Tells(Image(e, LimitsOf(maxValueBytes, scratch), flags, length), e, maxValueBytes, scratch)
  {
    ImageTellsFields(e, LimitsOf(maxValueBytes, scratch), flags, length);
  }

  // ---- the outcome of encoding ----

  predicate SchemaShort(m: Metadata) {
    && Short(m.eventName) && Short(m.package) && Short(m.target) && Short(m.moduleName)
    && ShortOptional(m.domain) && LocationFits(m.location)
  }

  predicate Countable(e: Envelope) {
    && |e.links| <= U16_MAX && |Kept(e.event.fields)| <= U16_MAX
    && SchemaShort(e.event.metadata)
    && forall f | f in Kept(e.event.fields) :: Short(f.metadata.name)
  }

  lemma RefusalIsCount(e: Envelope, l: Limits)
    ensures Refusal(Image(e, l, 0, 0)).None? <==> Countable(e)
  {
    var kept, fields := Kept(e.event.fields), ImageOfFields(Kept(e.event.fields), l);
    assert FieldNamesFit(fields) <==> forall f | f in kept :: Short(f.metadata.name) by {
      if FieldNamesFit(fields) {
        forall f | f in kept ensures Short(f.metadata.name) {
          var i :| 0 <= i < |kept| && kept[i] == f;
          assert fields[i] in fields;
        }
      }
    }
  }

  // What sealing makes of an encoder that stands after the whole frame.
  predicate Outcome(
      r: Result<Encoded, EncodeError>, refusal: Option<EncodeError>, printed: Bytes, cap: nat, cuts: u32)
    requires |printed| >= 12
  {
    && (r.Ok? <==> refusal.None? && |printed| <= cap && |printed| <= U32_MAX)
    && (r.Ok? ==> r.value == Encoded(Patch(printed, Flags(cuts), |printed|), cuts))
    && (r.Err? && refusal.None? ==> r.error == BufferTooSmall)
    && (r.Err? && refusal.Some? && |printed| <= cap ==> r.error == refusal.value)
  }

  lemma SealOutcome(w: Writer, refusal: Option<EncodeError>, printed: Bytes, cap: nat, cuts: u32)
    requires Stands(cap, w, refusal, printed) && |printed| >= 12
    ensures (w.Ok? ==> |w.value| >= 12) && Outcome(Seal(w, cuts), refusal, printed, cap, cuts)
  {
  }

  lemma EncodingOutcome(e: Envelope, l: Limits, cap: nat)
    ensures |Print(Image(e, l, 0, 0))| >= 12
    ensures Outcome(Encoding(e, l, cap), Refusal(Image(e, l, 0, 0)), Print(Image(e, l, 0, 0)), cap, SatAdd(0, Cuts(e, l)))
  {
    var w := Image(e, l, 0, 0);
    FrameOutcome(cap, w);
    FrameIsLong(w);
    SealOutcome(PutFrame(cap, w), Refusal(w), Print(w), cap, SatAdd(0, Cuts(e, l)));
  }

  lemma PatchedHead(h: Bytes, f: Bytes, n: Bytes, c: Bytes, body: Bytes, flags: u16, length: u32)
    requires |h| == 6 && |f| == 2 && |n| == 4
    ensures Patch(h + f + n + c + body, flags, length) == h + Le(2, flags) + Le(4, length) + c + body
  {
    var s := h + f + n + c + body;
    assert s[..6] == h && s[12..] == c + body;
    Assoc(h + Le(2, flags) + Le(4, length), c, body);
  }

  lemma PatchedFrame(e: Envelope, l: Limits, flags: u16, length: u32)
    ensures |Print(Image(e, l, 0, 0))| == |Print(Image(e, l, flags, length))| >= 12
    ensures Patch(Print(Image(e, l, 0, 0)), flags, length) == Print(Image(e, l, flags, length))
  {
    var w := Image(e, l, 0, 0);
    PatchedHead(MAGIC + Le(2, ABI_VERSION), Le(2, 0), Le(4, 0), PrintCounters(w.head.counters), PrintBody(w), flags, length);
    assert PrintBody(w) == PrintBody(Image(e, l, flags, length));
  }

  lemma FieldImageFits(f: FieldRef, l: Limits)
    requires Short(f.metadata.name) && l.formatted <= l.text <= U16_MAX
    ensures FieldFits(ImageOfField(f, l))
  {
  }

  lemma FieldImagesFit(kept: seq<FieldRef>, l: Limits)
    requires (forall f | f in kept :: Short(f.metadata.name)) && l.formatted <= l.text <= U16_MAX
    ensures forall w | w in ImageOfFields(kept, l) :: FieldFits(w)
  {
    forall i | 0 <= i < |kept| ensures FieldFits(ImageOfFields(kept, l)[i]) {
      assert kept[i] in kept;
      FieldImageFits(kept[i], l);
    }
  }

  lemma ImageFits(e: Envelope, l: Limits, flags: u16, length: u32)
    requires Countable(e) && l.formatted <= l.text <= U16_MAX
    ensures Fits(Image(e, l, flags, length))
  {
    FieldImagesFit(Kept(e.event.fields), l);
  }

  // What an accepted envelope's bytes are.
  function FrameFor(e: Envelope, l: Limits, length: u32): Wire {
    Image(e, l, Flags(Cuts(e, l)), length)
  }

  predicate IsEncodingOf(encoded: Encoded, e: Envelope, l: Limits, cap: nat) {
    && Countable(e) && |encoded.bytes| <= U32_MAX && |encoded.bytes| <= cap
    && encoded.bytes == Print(FrameFor(e, l, |encoded.bytes|))
    && encoded.truncatedValues == SatAdd(0, Cuts(e, l))
  }

  lemma EncodedBytes(e: Envelope, l: Limits, cap: nat, encoded: Encoded)
    ensures Encoding(e, l, cap) == Ok(encoded) ==> IsEncodingOf(encoded, e, l, cap)
  {
    EncodingOutcome(e, l, cap);
    RefusalIsCount(e, l);
    var cuts := SatAdd(0, Cuts(e, l));
    PatchedFrame(e, l, Flags(cuts), Min(|Print(Image(e, l, 0, 0))|, U32_MAX));
    assert Flags(cuts) == Flags(Cuts(e, l));
  }

  // ---- what is refused ----

  // A string's length can be said in 16 bits.
  predicate IsSayable(t: Text) {
    |t| <= 0xFFFF
  }

  predicate SchemaIsSayable(m: Metadata) {
    && IsSayable(m.eventName) && IsSayable(m.package) && IsSayable(m.target) && IsSayable(m.moduleName)
    && (m.domain.Some? ==> IsSayable(m.domain.value))
    && (m.location.Some? ==> IsSayable(m.location.value.file))
  }

  predicate NamesAreSayable(sent: seq<Option<FieldRef>>) {
    forall i :: 0 <= i < |sent| ==> sent[i].Some? ==> IsSayable(sent[i].value.metadata.name)
  }

  // Links, schema strings, sendable fields and their names are within what their
  // length fields can say.
  predicate WithinLimits(e: Envelope) {
    var sent := Sift(e.event.fields, IsSendable);
    |e.links| <= 0xFFFF && SchemaIsSayable(e.event.metadata) && |sent| <= 0xFFFF && NamesAreSayable(sent)
  }

  // What each error says of an envelope whose frame would fit the buffer.
  predicate Explains(error: EncodeError, e: Envelope) {
    var sent := Sift(e.event.fields, IsSendable);
    match error
    case TooManyLinks => |e.links| > 0xFFFF
    case TooManyFields => |e.links| <= 0xFFFF && SchemaIsSayable(e.event.metadata) && |sent| > 0xFFFF
    case SchemaStringTooLong =>
      && |e.links| <= 0xFFFF
      && (SchemaIsSayable(e.event.metadata) ==> |sent| <= 0xFFFF && !NamesAreSayable(sent))
    case BufferTooSmall => WithinLimits(e)
  }

  lemma NamesAreKept(e: Envelope)
    ensures (forall f | f in Kept(e.event.fields) :: Short(f.metadata.name))
      <==> NamesAreSayable(Sift(e.event.fields, IsSendable))
  {
    KeptAreSendable(e.event.fields);
    var kept, sent := Kept(e.event.fields), Sift(e.event.fields, IsSendable);
    if NamesAreSayable(sent) {
      forall f | f in kept ensures Short(f.metadata.name) {
        var i :| 0 <= i < |kept| && kept[i] == f;
        assert sent[i] == Some(f);
      }
    } else {
      var i :| 0 <= i < |sent| && sent[i].Some? && !IsSayable(sent[i].value.metadata.name);
      assert kept[i] in kept;
    }
  }

  lemma CountableIsWithinLimits(e: Envelope)
    ensures Countable(e) <==> WithinLimits(e)
  {
    KeptAreSendable(e.event.fields);
    NamesAreKept(e);
  }

  // The bytes are a frame that tells the envelope, with its own length in it, the flag
  // that says whether some text was shortened, and beside it how many were.
  ghost predicate IsTelling(encoded: Encoded, e: Envelope, maxValueBytes: nat, scratch: nat) {
    exists w :: TellsAll(w, encoded, e, maxValueBytes, scratch)
  }

  ghost predicate TellsAll(w: Wire, encoded: Encoded, e: Envelope, maxValueBytes: nat, scratch: nat) {
    && Fits(w) && encoded.bytes == Print(w)
    && Tells(w, e, maxValueBytes, scratch)
    && w.head.length == |encoded.bytes|
    && w.head.flags == (if Lost(w, e) == 0 then 0 else 1)
    && encoded.truncatedValues == Min(Lost(w, e), 0xFFFF_FFFF)
  }

  lemma EncodingTells(e: Envelope, maxValueBytes: nat, scratch: nat, cap: nat, encoded: Encoded)
    ensures Encoding(e, LimitsOf(maxValueBytes, scratch), cap) == Ok(encoded) ==>
      && |encoded.bytes| <= U32_MAX
      && TellsAll(FrameFor(e, LimitsOf(maxValueBytes, scratch), |encoded.bytes|), encoded, e, maxValueBytes, scratch)
  {
    var l := LimitsOf(maxValueBytes, scratch);
    EncodedBytes(e, l, cap, encoded);
    if IsEncodingOf(encoded, e, l, cap) {
      var flags := Flags(Cuts(e, l));
      ImageFits(e, l, flags, |encoded.bytes|);
      ImageTells(e, maxValueBytes, scratch, flags, |encoded.bytes|);
      ImageLoses(e, l, flags, |encoded.bytes|);
    }
  }
}
