// The frame as the ABI document tabulates it, byte by byte: what a printer and a parser
// could otherwise agree to change together.

module WireLayout {
  import opened Basics
  import opened Utf8
  import opened Facade
  import opened WireFormat
  import opened WireEncoder
  import opened WireMeaning

  // ---- integers and strings ----

  // Little-endian: byte `i` is the digit of weight 256 to the `i`.
  function Int(width: nat, v: nat): (b: Bytes) {
    seq(width, i requires 0 <= i < width => v / Pow256(i) % 256)
  }

  lemma DivideTwice(v: nat, a: nat, b: nat)
    requires a > 0 && b > 0
    ensures a * b > 0 && v / a / b == v / (a * b)
  {
    var q, r := v / a / b, v / a % b;
    assert v / a == b * q + r;
    assert v == a * (v / a) + v % a;
    assert a * (b * q + r) == (a * b) * q + a * r by {
      Distribute(a, b, q, r);
    }
    assert a * r + v % a < a * b by {
      StepBelow(a, r, b);
    }
    QuotientUnique(v, a * b, q, a * r + v % a);
  }

  lemma Distribute(a: nat, b: nat, q: nat, r: nat)
    ensures a * (b * q + r) == (a * b) * q + a * r
  {
    assert a * (b * q) == (a * b) * q;
  }

  lemma StepBelow(a: nat, r: nat, b: nat)
    requires r < b
    ensures a * r + a <= a * b
  {
    assert a * b == a * r + a * (b - r);
    assert b - r >= 1;
    if b - r > 1 {
      assert a * (b - r) == a + a * (b - r - 1);
    }
  }

  lemma QuotientUnique(v: nat, m: nat, q: nat, r: nat)
    requires m > 0 && v == m * q + r && r < m
    ensures v / m == q
  {
    var p := v / m;
    assert v == m * p + v % m;
    if p < q {
      StepBelow(m, p, q);
    } else if q < p {
      StepBelow(m, q, p);
    }
  }

  lemma {:induction false} LeIsInt(width: nat, v: nat)
    ensures Le(width, v) == Int(width, v)
  {
    if width > 0 {
      LeIsInt(width - 1, v / 256);
      forall i | 0 <= i < width ensures Le(width, v)[i] == Int(width, v)[i] {
        if i > 0 {
          DivideTwice(v, 256, Pow256(i - 1));
          assert Le(width, v)[i] == Le(width - 1, v / 256)[i - 1];
        } else {
          assert Pow256(0) == 1;
        }
      }
    }
  }

  function String(t: Text): Bytes {
    Int(2, |t|) + t
  }

  function Optional(t: Option<Text>): Bytes {
    if t.None? then [0] else [1] + String(t.value)
  }

  // ---- discriminants, in the order the facade declares them ----

  const SEVERITIES: seq<Severity> := [Trace, Debug, Info, Warn, Severity.Error, Critical]
  const CLASSES: seq<Class> := [Operational, Diagnostic, Forensic, Performance, Metric]
  const KINDS: seq<Kind> := [Kind.Event, AdHocText, Span, Counter, Measurement]
  const PRIVACIES: seq<Privacy> := [SupportSafe, LocalOnly, Secret]
  const DETAILS: seq<Detail> := [Core, Deferred]

  predicate IsAt<T(==)>(b: u8, list: seq<T>, x: T) {
    b < |list| && list[b] == x
  }

  lemma CodesAreDiscriminants(c: Classes, privacy: Privacy, detail: Detail)
    ensures IsAt(SeverityByte(c.severity), SEVERITIES, c.severity) && IsAt(ClassByte(c.class_), CLASSES, c.class_)
    ensures IsAt(KindByte(c.kind), KINDS, c.kind)
    ensures IsAt(PrivacyByte(privacy), PRIVACIES, privacy) && IsAt(DetailByte(detail), DETAILS, detail)
  {
  }

  // ---- the table ----

  predicate IsHeader(b: Bytes, h: Head) {
    && |b| == 60
    && b[..8] == [76, 87, 49, 0] + [1, 0] + Int(2, h.flags)
    && b[8..12] == Int(4, h.length)
    && b[12..20] == Int(8, h.counters.sequence)
    && b[20..28] == Int(8, h.counters.droppedBefore)
    && b[28..36] == Int(8, h.counters.truncatedBefore)
    && b[36..44] == Int(8, h.counters.worker)
    && b[44..52] == Int(8, h.counters.context.id)
    && b[52..60] == Int(8, h.counters.context.flags)
  }

  // The `i`th link stands at its place among entries of 16 bytes.
  predicate AreLinks(b: Bytes, links: seq<ContextToken>) {
    && |b| == 2 + 16 * |links| && b[..2] == Int(2, |links|)
    && forall i :: 0 <= i < |links| ==> IsLink(b, 2 + 16 * i, links[i])
  }

  predicate IsLink(b: Bytes, at: nat, link: ContextToken) {
    at + 16 <= |b| && b[at..at + 8] == Int(8, link.id) && b[at + 8..at + 16] == Int(8, link.flags)
  }

  predicate AreCodes(b: Bytes, c: Classes) {
    && |b| == 3 && IsAt(b[0], SEVERITIES, c.severity) && IsAt(b[1], CLASSES, c.class_) && IsAt(b[2], KINDS, c.kind)
  }

  // Tags 1 to 7: flags are one byte, numbers eight, texts strings.
  predicate IsPayload(b: Bytes, v: WireValue) {
    match v
    case WireBool(flag) => b == [1, if flag then 1 else 0]
    case WireI64(n) => b == [2] + Int(8, n)
    case WireU64(n) => b == [3] + Int(8, n)
    case WireF64(n) => b == [4] + Int(8, n)
    case WireString(t) => b == [5] + String(t)
    case WireDebug(t) => b == [6] + String(t)
    case WireDisplay(t) => b == [7] + String(t)
  }

  predicate IsEntry(b: Bytes, f: WireField) {
    var n := |String(f.name)|;
    && n + 2 <= |b| && b[..n] == String(f.name)
    && IsAt(b[n], PRIVACIES, f.privacy) && IsAt(b[n + 1], DETAILS, f.detail)
    && IsPayload(b[n + 2..], f.value)
  }

  // The entries one after the other.
  ghost predicate AreEntries(b: Bytes, fields: seq<WireField>)
    decreases |fields|
  {
    if fields == [] then b == []
    else
      var n := |fields| - 1;
      exists k :: 0 <= k <= |b| && AreEntries(b[..k], fields[..n]) && IsEntry(b[k..], fields[n])
  }

  // The sections in the document's order.
  ghost predicate IsTabulated(b: Bytes, w: Wire) {
    exists header: Bytes, links: Bytes, codes: Bytes, entries: Bytes ::
      && IsHeader(header, w.head) && AreLinks(links, w.links) && AreCodes(codes, w.classes)
      && AreEntries(entries, w.fields) && b == InOrder(header, links, codes, entries, w)
  }

  function InOrder(header: Bytes, links: Bytes, codes: Bytes, entries: Bytes, w: Wire): Bytes {
    header + links + codes
    + String(w.names.eventName) + String(w.names.package) + String(w.names.target) + String(w.names.moduleName)
    + Optional(w.extras.domain) + Optional(w.extras.test)
    + (match w.extras.location
       case None => [0]
       case Some(l) => [1] + String(l.file) + Int(4, l.line) + Int(4, l.column))
    + Int(4, w.omitted) + Int(2, |w.fields|) + entries + Optional(w.message)
  }

  // ---- the printer prints the table ----

  lemma StringIsPrinted(t: Text)
    ensures PrintText(t) == String(t)
  {
    LeIsInt(2, |t|);
  }

  lemma OptionalIsPrinted(t: Option<Text>)
    ensures PrintOptional(t) == Optional(t)
  {
    if t.Some? {
      StringIsPrinted(t.value);
    }
  }

  lemma HeaderIsPrinted(h: Head)
    ensures IsHeader(PrintHead(h), h)
  {
    var c := h.counters;
    LeIsInt(2, h.flags);
    LeIsInt(4, h.length);
    LeIsInt(8, c.sequence);
    LeIsInt(8, c.droppedBefore);
    LeIsInt(8, c.truncatedBefore);
    LeIsInt(8, c.worker);
    LeIsInt(8, c.context.id);
    LeIsInt(8, c.context.flags);
    assert Le(1, 0) == [0];
    assert Le(2, 1) == [1] + Le(1, 0);
    var p := MAGIC + Le(2, ABI_VERSION) + Le(2, h.flags);
    assert |PrintCounters(c)| == 48;
    assert PrintHead(h)[..8] == p;
    assert PrintHead(h)[8..12] == Le(4, h.length);
    assert PrintHead(h)[12..60] == PrintCounters(c);
    CountersArePrinted(c);
    var b := PrintHead(h);
    assert b[12..20] == b[12..60][0..8] && b[20..28] == b[12..60][8..16] && b[28..36] == b[12..60][16..24];
    assert b[36..44] == b[12..60][24..32] && b[44..52] == b[12..60][32..40] && b[52..60] == b[12..60][40..48];
  }

  lemma CountersArePrinted(c: Counters)
    ensures var b := PrintCounters(c);
      && |b| == 48
      && b[0..8] == Le(8, c.sequence) && b[8..16] == Le(8, c.droppedBefore) && b[16..24] == Le(8, c.truncatedBefore)
      && b[24..32] == Le(8, c.worker) && b[32..40] == Le(8, c.context.id) && b[40..48] == Le(8, c.context.flags)
  {
  }

  lemma {:induction false} LinksArePrinted(links: seq<ContextToken>, head: Bytes)
    requires |head| == 2
    ensures var b := head + PrintMany(PrintToken, links);
      |b| == 2 + 16 * |links| && forall i :: 0 <= i < |links| ==> IsLink(b, 2 + 16 * i, links[i])
  {
    if links != [] {
      var n := |links| - 1;
      var earlier := head + PrintMany(PrintToken, links[..n]);
      var b := head + PrintMany(PrintToken, links);
      LinksArePrinted(links[..n], head);
      assert b == earlier + PrintToken(links[n]);
      forall i | 0 <= i < |links| ensures IsLink(b, 2 + 16 * i, links[i]) {
        if i < n {
          assert IsLink(earlier, 2 + 16 * i, links[..n][i]);
          LinkStays(earlier, PrintToken(links[n]), 2 + 16 * i, links[i]);
        } else {
          LastLink(earlier, links[n]);
        }
      }
    }
  }

  lemma LinkStays(b: Bytes, more: Bytes, at: nat, link: ContextToken)
    requires IsLink(b, at, link)
    ensures IsLink(b + more, at, link)
  {
    assert (b + more)[at..at + 8] == b[at..at + 8] && (b + more)[at + 8..at + 16] == b[at + 8..at + 16];
  }

  lemma LastLink(b: Bytes, link: ContextToken)
    ensures IsLink(b + PrintToken(link), |b|, link)
  {
    LeIsInt(8, link.id);
    LeIsInt(8, link.flags);
    LastTwo(b, Int(8, link.id), Int(8, link.flags));
  }

  lemma LastTwo(b: Bytes, x: Bytes, y: Bytes)
    ensures var all := b + (x + y);
      all[|b|..|b| + |x|] == x && all[|b| + |x|..|b| + |x| + |y|] == y
  {
  }

  lemma PayloadIsPrinted(v: WireValue)
    ensures IsPayload([ValueTag(v)] + PrintPayload(v), v)
  {
    match v
    case WireBool(_) =>
    case WireI64(n) => LeIsInt(8, n);
    case WireU64(n) => LeIsInt(8, n);
    case WireF64(n) => LeIsInt(8, n);
    case _ => StringIsPrinted(v.text);
  }

  lemma EntryIsPrinted(f: WireField)
    ensures IsEntry(PrintField(f), f)
  {
    StringIsPrinted(f.name);
    PayloadIsPrinted(f.value);
    var b, n := PrintField(f), |String(f.name)|;
    assert b[..n] == String(f.name);
    assert b[n + 2..] == [ValueTag(f.value)] + PrintPayload(f.value);
    CodesAreDiscriminants(Classes(Trace, Operational, Kind.Event), f.privacy, f.detail);
  }

  lemma {:induction false} EntriesArePrinted(fields: seq<WireField>)
    ensures AreEntries(PrintMany(PrintField, fields), fields)
  {
    if fields != [] {
      var n := |fields| - 1;
      var earlier, b := PrintMany(PrintField, fields[..n]), PrintMany(PrintField, fields);
      EntriesArePrinted(fields[..n]);
      EntryIsPrinted(fields[n]);
      assert b[..|earlier|] == earlier && b[|earlier|..] == PrintField(fields[n]);
    }
  }

  lemma LocationIsPrinted(l: Option<Location>)
    ensures PrintLocation(l)
      == match l case None => [0] case Some(x) => [1] + String(x.file) + Int(4, x.line) + Int(4, x.column)
  {
    if l.Some? {
      StringIsPrinted(l.value.file);
      LeIsInt(4, l.value.line);
      LeIsInt(4, l.value.column);
    }
  }

  lemma SectionsInOrder(w: Wire)
    ensures Sections(w) == InOrder(PrintHead(w.head), Le(2, |w.links|) + PrintMany(PrintToken, w.links),
                                   PrintClasses(w.classes), PrintMany(PrintField, w.fields), w)
  {
    var n := w.names;
    StringIsPrinted(n.eventName);
    StringIsPrinted(n.package);
    StringIsPrinted(n.target);
    StringIsPrinted(n.moduleName);
    OptionalIsPrinted(w.extras.domain);
    OptionalIsPrinted(w.extras.test);
    LocationIsPrinted(w.extras.location);
    OptionalIsPrinted(w.message);
    LeIsInt(4, w.omitted);
    LeIsInt(2, |w.fields|);
    Regrouped(PrintHead(w.head) + (Le(2, |w.links|) + PrintMany(PrintToken, w.links)) + PrintClasses(w.classes),
              String(n.eventName), String(n.package), String(n.target), String(n.moduleName));
    var start := PrintHead(w.head) + (Le(2, |w.links|) + PrintMany(PrintToken, w.links)) + PrintClasses(w.classes)
      + PrintNames(n) + Optional(w.extras.domain) + Optional(w.extras.test) + PrintLocation(w.extras.location);
    Assoc(start, Int(4, w.omitted), Int(2, |w.fields|));
  }

  lemma Regrouped(s: Bytes, a: Bytes, b: Bytes, c: Bytes, d: Bytes)
    ensures s + (a + b + c + d) == s + a + b + c + d
  {
  }

  // Every frame is the document's table for it.
  lemma FrameIsTabulated(w: Wire)
    ensures IsTabulated(Print(w), w)
  {
    HeaderIsPrinted(w.head);
    LinksArePrinted(w.links, Le(2, |w.links|));
    LeIsInt(2, |w.links|);
    assert AreLinks(Le(2, |w.links|) + PrintMany(PrintToken, w.links), w.links);
    CodesAreDiscriminants(w.classes, SupportSafe, Core);
    EntriesArePrinted(w.fields);
    SectionsAreTheFrame(w);
    SectionsInOrder(w);
  }
}
