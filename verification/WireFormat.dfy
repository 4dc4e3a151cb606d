// The `logwise_v1` frame: its layout as a printer, and a host's parser, which leaves
// whatever follows the frame.

module WireFormat {
  import opened Basics
  import opened Utf8
  import opened Facade

  type Bytes = seq<u8>

  const MAGIC: Bytes := [0x4C, 0x57, 0x31, 0]
  const ABI_VERSION: u16 := 1
  const FLAG_TRUNCATED: u16 := 1

  datatype WireValue =
    | WireBool(flag: bool)
    | WireI64(signed: u64)
    | WireU64(unsigned: u64)
    | WireF64(bits: u64)
    | WireString(text: Text)
    | WireDebug(text: Text)
    | WireDisplay(text: Text)

  datatype WireField = WireField(name: Text, privacy: Privacy, detail: Detail, value: WireValue)

  datatype Counters = Counters(
    sequence: u64,
    droppedBefore: u64,
    truncatedBefore: u64,
    worker: u64,
    context: ContextToken)

  datatype Head = Head(flags: u16, length: u32, counters: Counters)

  datatype Classes = Classes(severity: Severity, class_: Class, kind: Kind)

  datatype Names = Names(eventName: Text, package: Text, target: Text, moduleName: Text)

  datatype Extras = Extras(domain: Option<Text>, test: Option<Text>, location: Option<Location>)

  // What one frame tells a host.
  datatype Wire = Wire(
    head: Head,
    links: seq<ContextToken>,
    classes: Classes,
    names: Names,
    extras: Extras,
    omitted: u32,
    fields: seq<WireField>,
    message: Option<Text>)

  // ---- little-endian integers ----

  function Pow256(n: nat): (p: nat)
    ensures p > 0
  {
    if n == 0 then 1 else 256 * Pow256(n - 1)
  }

  function Le(width: nat, v: nat): (b: Bytes)
    ensures |b| == width
  {
    if width == 0 then [] else [v % 256] + Le(width - 1, v / 256)
  }

  function UnLe(b: Bytes): (v: nat)
    ensures v < Pow256(|b|)
  {
    if b == [] then 0 else b[0] + 256 * UnLe(b[1..])
  }

  lemma {:induction false} UnLeUndoesLe(width: nat, v: nat)
    requires v < Pow256(width)
    ensures UnLe(Le(width, v)) == v
  {
    if width > 0 {
      UnLeUndoesLe(width - 1, v / 256);
      assert Le(width, v)[1..] == Le(width - 1, v / 256);
    }
  }

  lemma Widths()
    ensures Pow256(1) == 0x100 && Pow256(2) == 0x1_0000 && Pow256(4) == 0x1_0000_0000
    ensures Pow256(8) == 0x1_0000_0000_0000_0000
  {
    assert Pow256(1) == 256 * Pow256(0);
    assert Pow256(2) == 256 * Pow256(1);
    assert Pow256(3) == 256 * Pow256(2);
    assert Pow256(4) == 256 * Pow256(3);
    assert Pow256(5) == 256 * Pow256(4);
    assert Pow256(6) == 256 * Pow256(5);
    assert Pow256(7) == 256 * Pow256(6);
  }

  // ---- printers ----

  function PrintText(t: Text): Bytes {
    Le(2, |t|) + t
  }

  function PrintOptional(t: Option<Text>): Bytes {
    if t.None? then [0] else [1] + PrintText(t.value)
  }

  function PrintToken(t: ContextToken): Bytes {
    Le(8, t.id) + Le(8, t.flags)
  }

  function PrintMany<T>(show: T -> Bytes, items: seq<T>): Bytes {
    if items == [] then [] else PrintMany(show, items[..|items| - 1]) + show(items[|items| - 1])
  }

  function SeverityByte(s: Severity): u8 {
    match s case Trace => 0 case Debug => 1 case Info => 2 case Warn => 3 case Error => 4 case Critical => 5
  }

  function ClassByte(c: Class): u8 {
    match c case Operational => 0 case Diagnostic => 1 case Forensic => 2 case Performance => 3 case Metric => 4
  }

  function KindByte(k: Kind): u8 {
    match k case Event => 0 case AdHocText => 1 case Span => 2 case Counter => 3 case Measurement => 4
  }

  function PrivacyByte(p: Privacy): u8 {
    match p case SupportSafe => 0 case LocalOnly => 1 case Secret => 2
  }

  function DetailByte(d: Detail): u8 {
    match d case Core => 0 case Deferred => 1
  }

  function PrintHead(h: Head): Bytes {
    MAGIC + Le(2, ABI_VERSION) + Le(2, h.flags) + Le(4, h.length) + PrintCounters(h.counters)
  }

  function PrintCounters(c: Counters): Bytes {
    Le(8, c.sequence) + Le(8, c.droppedBefore) + Le(8, c.truncatedBefore) + Le(8, c.worker) + PrintToken(c.context)
  }

  function PrintClasses(c: Classes): Bytes {
    [SeverityByte(c.severity)] + [ClassByte(c.class_)] + [KindByte(c.kind)]
  }

  function PrintNames(n: Names): Bytes {
    PrintText(n.eventName) + PrintText(n.package) + PrintText(n.target) + PrintText(n.moduleName)
  }

  function PrintLocation(l: Option<Location>): Bytes {
    if l.None? then [0] else [1] + PrintText(l.value.file) + Le(4, l.value.line) + Le(4, l.value.column)
  }

  function PrintExtras(e: Extras): Bytes {
    PrintOptional(e.domain) + PrintOptional(e.test) + PrintLocation(e.location)
  }

  function ValueTag(v: WireValue): u8 {
    match v
    case WireBool(_) => 1
    case WireI64(_) => 2
    case WireU64(_) => 3
    case WireF64(_) => 4
    case WireString(_) => 5
    case WireDebug(_) => 6
    case WireDisplay(_) => 7
  }

  function PrintPayload(v: WireValue): Bytes {
    match v
    case WireBool(b) => [if b then 1 else 0]
    case WireI64(i) => Le(8, i)
    case WireU64(u) => Le(8, u)
    case WireF64(f) => Le(8, f)
    case _ => PrintText(v.text)
  }

  function PrintField(f: WireField): Bytes {
    PrintText(f.name) + [PrivacyByte(f.privacy)] + [DetailByte(f.detail)] + [ValueTag(f.value)] + PrintPayload(f.value)
  }

  function PrintContents(w: Wire): Bytes {
    Le(4, w.omitted) + Le(2, |w.fields|) + PrintMany(PrintField, w.fields) + PrintOptional(w.message)
  }

  function PrintBody(w: Wire): Bytes {
    Le(2, |w.links|) + PrintMany(PrintToken, w.links)
    + PrintClasses(w.classes) + PrintNames(w.names) + PrintExtras(w.extras) + PrintContents(w)
  }

  function Print(w: Wire): Bytes {
    PrintHead(w.head) + PrintBody(w)
  }

  // ---- what fits the format's length fields ----

  predicate Short(t: Text) {
    |t| <= U16_MAX
  }

  predicate ShortOptional(t: Option<Text>) {
    t.Some? ==> Short(t.value)
  }

  predicate ValueFits(v: WireValue) {
    v.WireString? || v.WireDebug? || v.WireDisplay? ==> Short(v.text)
  }

  predicate FieldFits(f: WireField) {
    Short(f.name) && ValueFits(f.value)
  }

  predicate NamesFit(n: Names) {
    Short(n.eventName) && Short(n.package) && Short(n.target) && Short(n.moduleName)
  }

  predicate LocationFits(l: Option<Location>) {
    l.Some? ==> Short(l.value.file)
  }

  predicate ExtrasFit(e: Extras) {
    ShortOptional(e.domain) && ShortOptional(e.test) && LocationFits(e.location)
  }

  predicate Fits(w: Wire) {
    && |w.links| <= U16_MAX && NamesFit(w.names) && ExtrasFit(w.extras)
    && |w.fields| <= U16_MAX && (forall f | f in w.fields :: FieldFits(f))
    && ShortOptional(w.message)
  }

  // ---- a host's parser ----

  // A value read from the front, and the bytes after it.
  datatype Parsed<+T> = Failed | Got(value: T, rest: Bytes)
  {
    predicate IsFailure() {
      Failed?
    }

    function PropagateFailure<U>(): Parsed<U>
      requires Failed?
    {
      Failed
    }

    function Extract(): (T, Bytes)
      requires Got?
    {
      (value, rest)
    }
  }

  function TakeInt(width: nat, s: Bytes): (r: Parsed<nat>)
    ensures r.Got? ==> r.value < Pow256(width)
  {
    if width > |s| then Failed else Got(UnLe(s[..width]), s[width..])
  }

  function TakeU8(s: Bytes): Parsed<u8> {
    if s == [] then Failed else Got(s[0], s[1..])
  }

  function TakeU16(s: Bytes): Parsed<u16> {
    Widths();
    var n :- TakeInt(2, s);
    Got(n.0, n.1)
  }

  function TakeU32(s: Bytes): Parsed<u32> {
    Widths();
    var n :- TakeInt(4, s);
    Got(n.0, n.1)
  }

  function TakeU64(s: Bytes): Parsed<u64> {
    Widths();
    var n :- TakeInt(8, s);
    Got(n.0, n.1)
  }

  function TakeText(s: Bytes): Parsed<Text> {
    var n :- TakeU16(s);
    if n.0 > |n.1| || !Valid(n.1[..n.0]) then Failed else Got(n.1[..n.0], n.1[n.0..])
  }

  function TakeOptional(s: Bytes): Parsed<Option<Text>> {
    var tag :- TakeU8(s);
    if tag.0 == 0 then Got(None, tag.1)
    else if tag.0 == 1 then var t :- TakeText(tag.1); Got(Some(t.0), t.1)
    else Failed
  }

  function TakeToken(s: Bytes): Parsed<ContextToken> {
    var id :- TakeU64(s);
    var flags :- TakeU64(id.1);
    Got(ContextToken(id.0, flags.0), flags.1)
  }

  function TakeMany<T>(take: Bytes -> Parsed<T>, count: nat, s: Bytes): Parsed<seq<T>> {
    if count == 0 then Got([], s)
    else
      var earlier :- TakeMany(take, count - 1, s);
      var last :- take(earlier.1);
      Got(earlier.0 + [last.0], last.1)
  }

  function TakeSeverity(s: Bytes): Parsed<Severity> {
    var b :- TakeU8(s);
    match b.0
    case 0 => Got(Trace, b.1) case 1 => Got(Debug, b.1) case 2 => Got(Info, b.1)
    case 3 => Got(Warn, b.1) case 4 => Got(Severity.Error, b.1) case 5 => Got(Critical, b.1)
    case _ => Failed
  }

  function TakeClass(s: Bytes): Parsed<Class> {
    var b :- TakeU8(s);
    match b.0
    case 0 => Got(Operational, b.1) case 1 => Got(Diagnostic, b.1) case 2 => Got(Forensic, b.1)
    case 3 => Got(Performance, b.1) case 4 => Got(Metric, b.1)
    case _ => Failed
  }

  function TakeKind(s: Bytes): Parsed<Kind> {
    var b :- TakeU8(s);
    match b.0
    case 0 => Got(Kind.Event, b.1) case 1 => Got(AdHocText, b.1) case 2 => Got(Span, b.1)
    case 3 => Got(Counter, b.1) case 4 => Got(Measurement, b.1)
    case _ => Failed
  }

  function TakePrivacy(s: Bytes): Parsed<Privacy> {
    var b :- TakeU8(s);
    match b.0
    case 0 => Got(SupportSafe, b.1) case 1 => Got(LocalOnly, b.1) case 2 => Got(Secret, b.1)
    case _ => Failed
  }

  function TakeDetail(s: Bytes): Parsed<Detail> {
    var b :- TakeU8(s);
    match b.0
    case 0 => Got(Core, b.1) case 1 => Got(Deferred, b.1)
    case _ => Failed
  }

  function TakeCounters(s: Bytes): Parsed<Counters> {
    var sequence :- TakeU64(s);
    var dropped :- TakeU64(sequence.1);
    var truncated :- TakeU64(dropped.1);
    var worker :- TakeU64(truncated.1);
    var context :- TakeToken(worker.1);
    Got(Counters(sequence.0, dropped.0, truncated.0, worker.0, context.0), context.1)
  }

  function TakeHead(s: Bytes): Parsed<Head> {
    if !(MAGIC <= s) then Failed
    else
      var version :- TakeU16(s[4..]);
      if version.0 != ABI_VERSION then Failed
      else
        var flags :- TakeU16(version.1);
        var length :- TakeU32(flags.1);
        var counters :- TakeCounters(length.1);
        Got(Head(flags.0, length.0, counters.0), counters.1)
  }

  function TakeClasses(s: Bytes): Parsed<Classes> {
    var severity :- TakeSeverity(s);
    var class_ :- TakeClass(severity.1);
    var kind :- TakeKind(class_.1);
    Got(Classes(severity.0, class_.0, kind.0), kind.1)
  }

  function TakeNames(s: Bytes): Parsed<Names> {
    var eventName :- TakeText(s);
    var package :- TakeText(eventName.1);
    var target :- TakeText(package.1);
    var moduleName :- TakeText(target.1);
    Got(Names(eventName.0, package.0, target.0, moduleName.0), moduleName.1)
  }

  function TakeLocation(s: Bytes): Parsed<Option<Location>> {
    var tag :- TakeU8(s);
    if tag.0 == 0 then Got(None, tag.1)
    else if tag.0 == 1 then
      var file :- TakeText(tag.1);
      var line :- TakeU32(file.1);
      var column :- TakeU32(line.1);
      Got(Some(Location(file.0, line.0, column.0)), column.1)
    else Failed
  }

  function TakeExtras(s: Bytes): Parsed<Extras> {
    var domain :- TakeOptional(s);
    var test :- TakeOptional(domain.1);
    var location :- TakeLocation(test.1);
    Got(Extras(domain.0, test.0, location.0), location.1)
  }

  function TakePayload(tag: u8, s: Bytes): Parsed<WireValue> {
    if tag == 1 then
      var b :- TakeU8(s);
      if b.0 <= 1 then Got(WireBool(b.0 == 1), b.1) else Failed
    else if 2 <= tag <= 4 then
      var n :- TakeU64(s);
      Got(if tag == 2 then WireI64(n.0) else if tag == 3 then WireU64(n.0) else WireF64(n.0), n.1)
    else if 5 <= tag <= 7 then
      var t :- TakeText(s);
      Got(if tag == 5 then WireString(t.0) else if tag == 6 then WireDebug(t.0) else WireDisplay(t.0), t.1)
    else Failed
  }

  function TakeField(s: Bytes): Parsed<WireField> {
    var name :- TakeText(s);
    var privacy :- TakePrivacy(name.1);
    var detail :- TakeDetail(privacy.1);
    var tag :- TakeU8(detail.1);
    var value :- TakePayload(tag.0, tag.1);
    Got(WireField(name.0, privacy.0, detail.0, value.0), value.1)
  }

  function TakeLinks(s: Bytes): Parsed<seq<ContextToken>> {
    var count :- TakeU16(s);
    TakeMany(TakeToken, count.0, count.1)
  }

  function TakeFields(s: Bytes): Parsed<seq<WireField>> {
    var count :- TakeU16(s);
    TakeMany(TakeField, count.0, count.1)
  }

  function Parse(s: Bytes): Parsed<Wire> {
    var head :- TakeHead(s);
    var links :- TakeLinks(head.1);
    var classes :- TakeClasses(links.1);
    var names :- TakeNames(classes.1);
    var extras :- TakeExtras(names.1);
    var omitted :- TakeU32(extras.1);
    var fields :- TakeFields(omitted.1);
    var message :- TakeOptional(fields.1);
    Got(Wire(head.0, links.0, classes.0, names.0, extras.0, omitted.0, fields.0, message.0), message.1)
  }

  // ---- round trip ----

  lemma Assoc(x: Bytes, y: Bytes, z: Bytes)
    ensures (x + y) + z == x + (y + z)
  {
  }

  lemma ReadsInt(width: nat, v: nat, rest: Bytes)
    requires v < Pow256(width)
    ensures TakeInt(width, Le(width, v) + rest) == Got(v, rest)
  {
    UnLeUndoesLe(width, v);
    var s := Le(width, v) + rest;
    assert s[..width] == Le(width, v) && s[width..] == rest;
  }

  lemma ReadsU8(v: u8, rest: Bytes)
    ensures TakeU8([v] + rest) == Got(v, rest)
  {
  }

  lemma ReadsU16(v: u16, rest: Bytes)
    ensures TakeU16(Le(2, v) + rest) == Got(v, rest)
  {
    Widths();
    ReadsInt(2, v, rest);
  }

  lemma ReadsU32(v: u32, rest: Bytes)
    ensures TakeU32(Le(4, v) + rest) == Got(v, rest)
  {
    Widths();
    ReadsInt(4, v, rest);
  }

  lemma ReadsU64(v: u64, rest: Bytes)
    ensures TakeU64(Le(8, v) + rest) == Got(v, rest)
  {
    Widths();
    ReadsInt(8, v, rest);
  }

  lemma ReadsText(t: Text, rest: Bytes)
    requires Short(t)
    ensures TakeText(PrintText(t) + rest) == Got(t, rest)
  {
    Assoc(Le(2, |t|), t, rest);
    ReadsU16(|t|, t + rest);
    assert (t + rest)[..|t|] == t && (t + rest)[|t|..] == rest;
  }

  lemma ReadsOptional(t: Option<Text>, rest: Bytes)
    requires ShortOptional(t)
    ensures TakeOptional(PrintOptional(t) + rest) == Got(t, rest)
  {
    if t.None? {
      ReadsU8(0, rest);
    } else {
      Assoc([1], PrintText(t.value), rest);
      ReadsU8(1, PrintText(t.value) + rest);
      ReadsText(t.value, rest);
    }
  }

  lemma ReadsToken(t: ContextToken, rest: Bytes)
    ensures TakeToken(PrintToken(t) + rest) == Got(t, rest)
  {
    Assoc(Le(8, t.id), Le(8, t.flags), rest);
    ReadsU64(t.id, Le(8, t.flags) + rest);
    ReadsU64(t.flags, rest);
  }

  // A list is read back as soon as each of its items is.
  lemma {:induction false} ReadsMany<T>(show: T -> Bytes, take: Bytes -> Parsed<T>, items: seq<T>, rest: Bytes)
    requires forall item, rest' | item in items :: take(show(item) + rest') == Got(item, rest')
    ensures TakeMany(take, |items|, PrintMany(show, items) + rest) == Got(items, rest)
  {
    if items != [] {
      var n := |items| - 1;
      Assoc(PrintMany(show, items[..n]), show(items[n]), rest);
      ReadsMany(show, take, items[..n], show(items[n]) + rest);
      assert items[..n] + [items[n]] == items;
    }
  }

  lemma ReadsCounters(c: Counters, rest: Bytes)
    ensures TakeCounters(PrintCounters(c) + rest) == Got(c, rest)
  {
    var a, b, d, e := Le(8, c.sequence), Le(8, c.droppedBefore), Le(8, c.truncatedBefore), Le(8, c.worker);
    var t4 := PrintToken(c.context) + rest;
    var t3 := e + t4;
    var t2 := d + t3;
    var t1 := b + t2;
    Assoc(a + b + d + e, PrintToken(c.context), rest);
    Assoc(a + b + d, e, t4);
    Assoc(a + b, d, t3);
    Assoc(a, b, t2);
    ReadsU64(c.sequence, t1);
    ReadsU64(c.droppedBefore, t2);
    ReadsU64(c.truncatedBefore, t3);
    ReadsU64(c.worker, t4);
    ReadsToken(c.context, rest);
  }

  lemma ReadsHead(h: Head, rest: Bytes)
    ensures TakeHead(PrintHead(h) + rest) == Got(h, rest)
  {
    var v, f, l, c := Le(2, ABI_VERSION), Le(2, h.flags), Le(4, h.length), PrintCounters(h.counters);
    var t3 := c + rest;
    var t2 := l + t3;
    var t1 := f + t2;
    Assoc(MAGIC + v + f + l, c, rest);
    Assoc(MAGIC + v + f, l, t3);
    Assoc(MAGIC + v, f, t2);
    Assoc(MAGIC, v, t1);
    assert (MAGIC + (v + t1))[4..] == v + t1;
    ReadsU16(ABI_VERSION, t1);
    ReadsU16(h.flags, t2);
    ReadsU32(h.length, t3);
    ReadsCounters(h.counters, rest);
  }

  lemma ReadsSeverity(x: Severity, rest: Bytes)
    ensures TakeSeverity([SeverityByte(x)] + rest) == Got(x, rest)
  {
    ReadsU8(SeverityByte(x), rest);
  }

  lemma ReadsClass(x: Class, rest: Bytes)
    ensures TakeClass([ClassByte(x)] + rest) == Got(x, rest)
  {
    ReadsU8(ClassByte(x), rest);
  }

  lemma ReadsKind(x: Kind, rest: Bytes)
    ensures TakeKind([KindByte(x)] + rest) == Got(x, rest)
  {
    ReadsU8(KindByte(x), rest);
  }

  lemma ReadsPrivacy(x: Privacy, rest: Bytes)
    ensures TakePrivacy([PrivacyByte(x)] + rest) == Got(x, rest)
  {
    ReadsU8(PrivacyByte(x), rest);
  }

  lemma ReadsDetail(x: Detail, rest: Bytes)
    ensures TakeDetail([DetailByte(x)] + rest) == Got(x, rest)
  {
    ReadsU8(DetailByte(x), rest);
  }

  lemma ReadsClasses(c: Classes, rest: Bytes)
    ensures TakeClasses(PrintClasses(c) + rest) == Got(c, rest)
  {
    var a, b, d := [SeverityByte(c.severity)], [ClassByte(c.class_)], [KindByte(c.kind)];
    Assoc(a + b, d, rest);
    Assoc(a, b, d + rest);
    ReadsSeverity(c.severity, b + (d + rest));
    ReadsClass(c.class_, d + rest);
    ReadsKind(c.kind, rest);
  }

  lemma ReadsNames(n: Names, rest: Bytes)
    requires NamesFit(n)
    ensures TakeNames(PrintNames(n) + rest) == Got(n, rest)
  {
    var a, b, c, d := PrintText(n.eventName), PrintText(n.package), PrintText(n.target), PrintText(n.moduleName);
    Assoc(a + b + c, d, rest);
    Assoc(a + b, c, d + rest);
    Assoc(a, b, c + (d + rest));
    ReadsText(n.eventName, b + (c + (d + rest)));
    ReadsText(n.package, c + (d + rest));
    ReadsText(n.target, d + rest);
    ReadsText(n.moduleName, rest);
  }

  lemma ReadsLocation(l: Option<Location>, rest: Bytes)
    requires LocationFits(l)
    ensures TakeLocation(PrintLocation(l) + rest) == Got(l, rest)
  {
    if l.None? {
      ReadsU8(0, rest);
    } else {
      var a, b, c := PrintText(l.value.file), Le(4, l.value.line), Le(4, l.value.column);
      Assoc([1] + a + b, c, rest);
      Assoc([1] + a, b, c + rest);
      Assoc([1], a, b + (c + rest));
      ReadsU8(1, a + (b + (c + rest)));
      ReadsText(l.value.file, b + (c + rest));
      ReadsU32(l.value.line, c + rest);
      ReadsU32(l.value.column, rest);
    }
  }

  lemma ReadsExtras(e: Extras, rest: Bytes)
    requires ExtrasFit(e)
    ensures TakeExtras(PrintExtras(e) + rest) == Got(e, rest)
  {
    var a, b, c := PrintOptional(e.domain), PrintOptional(e.test), PrintLocation(e.location);
    Assoc(a + b, c, rest);
    Assoc(a, b, c + rest);
    ReadsOptional(e.domain, b + (c + rest));
    ReadsOptional(e.test, c + rest);
    ReadsLocation(e.location, rest);
  }

  lemma ReadsPayload(v: WireValue, rest: Bytes)
    requires ValueFits(v)
    ensures TakePayload(ValueTag(v), PrintPayload(v) + rest) == Got(v, rest)
  {
    match v
    case WireBool(b) => ReadsU8(if b then 1 else 0, rest);
    case WireI64(n) => ReadsU64(n, rest);
    case WireU64(n) => ReadsU64(n, rest);
    case WireF64(n) => ReadsU64(n, rest);
    case _ => ReadsText(v.text, rest);
  }

  lemma ReadsField(f: WireField, rest: Bytes)
    requires FieldFits(f)
    ensures TakeField(PrintField(f) + rest) == Got(f, rest)
  {
    var a, p, d, v := PrintText(f.name), [PrivacyByte(f.privacy)], [DetailByte(f.detail)], [ValueTag(f.value)];
    var t3 := PrintPayload(f.value) + rest;
    var t2 := v + t3;
    var t1 := d + t2;
    Assoc(a + p + d + v, PrintPayload(f.value), rest);
    Assoc(a + p + d, v, t3);
    Assoc(a + p, d, t2);
    Assoc(a, p, t1);
    ReadsText(f.name, p + t1);
    ReadsPrivacy(f.privacy, t1);
    ReadsDetail(f.detail, t2);
    ReadsU8(ValueTag(f.value), t3);
    ReadsPayload(f.value, rest);
  }

  lemma ReadsLinks(links: seq<ContextToken>, rest: Bytes)
    requires |links| <= U16_MAX
    ensures TakeLinks(Le(2, |links|) + (PrintMany(PrintToken, links) + rest)) == Got(links, rest)
  {
    forall t, rest' | t in links ensures TakeToken(PrintToken(t) + rest') == Got(t, rest') {
      ReadsToken(t, rest');
    }
    ReadsMany(PrintToken, TakeToken, links, rest);
    ReadsU16(|links|, PrintMany(PrintToken, links) + rest);
  }

  lemma ReadsFields(fields: seq<WireField>, rest: Bytes)
    requires |fields| <= U16_MAX && forall f | f in fields :: FieldFits(f)
    ensures TakeFields(Le(2, |fields|) + (PrintMany(PrintField, fields) + rest)) == Got(fields, rest)
  {
    forall f, rest' | f in fields ensures TakeField(PrintField(f) + rest') == Got(f, rest') {
      ReadsField(f, rest');
    }
    ReadsMany(PrintField, TakeField, fields, rest);
    ReadsU16(|fields|, PrintMany(PrintField, fields) + rest);
  }

  // The frame and what follows it, grouped the way the parser consumes it.
  lemma Regroup(w: Wire, rest: Bytes)
    ensures Print(w) + rest == PrintHead(w.head) + (Le(2, |w.links|) + (PrintMany(PrintToken, w.links)
      + (PrintClasses(w.classes) + (PrintNames(w.names) + (PrintExtras(w.extras) + (Le(4, w.omitted)
      + (Le(2, |w.fields|) + (PrintMany(PrintField, w.fields) + (PrintOptional(w.message) + rest)))))))))
  {
    var a, b, c, d, e := Le(2, |w.links|), PrintMany(PrintToken, w.links), PrintClasses(w.classes),
      PrintNames(w.names), PrintExtras(w.extras);
    var f, g, h, i := Le(4, w.omitted), Le(2, |w.fields|), PrintMany(PrintField, w.fields), PrintOptional(w.message);
    var t := PrintContents(w) + rest;
    Assoc(f + g + h, i, rest);
    Assoc(f + g, h, i + rest);
    Assoc(f, g, h + (i + rest));
    Assoc(PrintHead(w.head), PrintBody(w), rest);
    Assoc(a + b + c + d + e, PrintContents(w), rest);
    Assoc(a + b + c + d, e, t);
    Assoc(a + b + c, d, e + t);
    Assoc(a + b, c, d + (e + t));
    Assoc(a, b, c + (d + (e + t)));
  }

  // The parser undoes the printer and leaves exactly what follows the frame.
  lemma ReadsFrame(w: Wire, rest: Bytes)
    requires Fits(w)
    ensures Parse(Print(w) + rest) == Got(w, rest)
  {
    Regroup(w, rest);
    var t8 := PrintOptional(w.message) + rest;
    var t6 := Le(2, |w.fields|) + (PrintMany(PrintField, w.fields) + t8);
    var t5 := Le(4, w.omitted) + t6;
    var t4 := PrintExtras(w.extras) + t5;
    var t3 := PrintNames(w.names) + t4;
    var t2 := PrintClasses(w.classes) + t3;
    ReadsHead(w.head, Le(2, |w.links|) + (PrintMany(PrintToken, w.links) + t2));
    ReadsLinks(w.links, t2);
    ReadsClasses(w.classes, t3);
    ReadsNames(w.names, t4);
    ReadsExtras(w.extras, t5);
    ReadsU32(w.omitted, t6);
    ReadsFields(w.fields, t8);
    ReadsOptional(w.message, rest);
  }

  // A host that is handed frames back to back reads all of them.
  lemma ReadsStream(frames: seq<Wire>, rest: Bytes)
    requires forall w | w in frames :: Fits(w)
    ensures TakeMany(Parse, |frames|, PrintMany(Print, frames) + rest) == Got(frames, rest)
  {
    forall w, rest' | w in frames ensures Parse(Print(w) + rest') == Got(w, rest') {
      ReadsFrame(w, rest');
    }
    ReadsMany(Print, Parse, frames, rest);
  }

  // No frame is a prefix of a different one.
  lemma FramesAreUnambiguous(v: Wire, w: Wire, x: Bytes, y: Bytes)
    requires Fits(v) && Fits(w) && Print(v) + x == Print(w) + y
    ensures v == w && x == y
  {
    ReadsFrame(v, x);
    ReadsFrame(w, y);
  }
}
