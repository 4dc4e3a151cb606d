// The encoder as it runs: bytes are copied into the caller's buffer at an advancing
// position, formatted text goes through a scratch buffer, and the flags and length of
// a frame are patched in at the end.

module WireBuffer {
  import opened Basics
  import opened Utf8
  import opened Facade
  import opened WireFormat
  import opened WireEncoder
  import opened WireMeaning

  datatype Outcome = Pass | Fail(error: EncodeError)
  {
    predicate IsFailure() {
      Fail?
    }

    function PropagateFailure(): Outcome
      requires Fail?
    {
      this
    }
  }

  // What an outcome and the buffer's contents amount to.
  predicate Reflects(o: Outcome, contents: Bytes, w: Writer) {
    match w
    case Ok(s) => o == Pass && contents == s
    case Err(e) => o == Fail(e)
  }

  // ---- the scratch buffer formatted text is rendered into ----

  lemma ValidAfter(p: Text, x: Bytes)
    requires Valid(p + x)
    ensures Valid(x)
  {
    assert (p + x)[..|p|] == p && (p + x)[|p|..] == x;
    BoundaryExact(p + x, |p|);
  }

  // A longer prefix of `p + v` is valid only if it stays valid without `p`.
  lemma LongestAfter(p: Text, v: Text, limit: nat, whole: Text)
    requires |p| <= limit < |p| + |v| && p + v <= whole
    ensures IsLongestPrefix(whole, limit, p + Clip(v, limit - |p|))
  {
    var cut := Clip(v, limit - |p|);
    ConcatValid(p, cut);
    assert cut == v[..|cut|];
    forall k | |p + cut| < k <= |whole| && k <= limit ensures !Valid(whole[..k]) {
      var x := v[..k - |p|];
      assert whole[..k] == p + x;
      if Valid(p + x) {
        ValidAfter(p, x);
        assert false;
      }
    }
    assert whole[..|p + cut|] == p + cut;
  }

  // After a full prefix, the longest legal prefix of the rest is that of the whole.
  lemma ClipAfter(p: Text, v: Text, limit: nat, whole: Text)
    requires |p| <= limit < |p| + |v| && p + v <= whole
    ensures Clip(whole, limit) == p + Clip(v, limit - |p|)
  {
    LongestAfter(p, v, limit, whole);
    LongestPrefixUnique(whole, limit, p + Clip(v, limit - |p|), Clip(whole, limit));
  }

  lemma CutShort(before: Text, piece: Text, rest: Bytes, limit: nat, whole: Text)
    requires |before| <= limit < |before| + |piece| && before + (piece + rest) == whole
    ensures before + Clip(piece, limit - |before|) == Clip(whole, limit) && |whole| > limit
  {
    Assoc(before, piece, rest);
    assert before + piece <= whole;
    ClipAfter(before, piece, limit, whole);
  }

  // Clipping to no more than the text's length changes nothing.
  lemma ClipWithin(value: Text, available: nat)
    ensures Clip(value, Min(|value|, available)) == Clip(value, available)
  {
    LongestPrefixUnique(value, available, Clip(value, Min(|value|, available)), Clip(value, available));
  }

  class ScratchWriter {
    const output: array<u8>
    var position: nat
    var truncated: bool

    ghost predicate Valid()
      reads this, output
    {
      position <= output.Length && Utf8.Valid(output[..position])
    }

    constructor (output: array<u8>)
      ensures this.output == output && position == 0 && !truncated && Valid()
    {
      this.output := output;
      position, truncated := 0, false;
    }

    method Copy(value: Text)
      requires Valid() && position + |value| <= output.Length
      modifies this`position, output
      ensures Valid() && output[..position] == old(output[..position]) + value
    {
      ghost var before := output[..position];
      forall i | 0 <= i < |value| {
        output[position + i] := value[i];
      }
      position := position + |value|;
      assert output[..position] == before + value;
      ConcatValid(before, value);
    }

    // `write_str`: as much of the string as fits, ending at a character boundary.
    method WriteStr(value: Text) returns (ok: bool)
      requires Valid()
      modifies this, output
      ensures Valid()
      ensures ok == (|value| <= output.Length - old(position)) && truncated == (old(truncated) || !ok)
      ensures output[..position] == old(output[..position]) + Clip(value, output.Length - old(position))
    {
      var available := output.Length - position;
      var length := FloorBoundary(value, Min(|value|, available));
      ClipWithin(value, available);
      Copy(value[..length]);
      if length != |value| {
        truncated := true;
        return false;
      }
      return true;
    }

    // `fmt::write`: the formatter's strings in order, stopping at the first error.
    method Render(f: Format)
      requires Valid() && position == 0 && !truncated
      modifies this, output
      ensures Valid()
      ensures output[..position] == Clip(Written(f), output.Length)
      ensures truncated == (|Written(f)| > output.Length)
    {
      var i := 0;
      ghost var whole := Written(f);
      assert f[0..] == f && output[..position] == [];
      assert [] + whole == whole;
      while i < |f|
        invariant i <= |f| && Valid() && !truncated
        invariant output[..position] + Written(f[i..]) == whole
      {
        ghost var before := output[..position];
        RestWritten(f, i);
        Assoc(before, f[i], Written(f[i + 1..]));
        var ok := WriteStr(f[i]);
        if !ok {
          CutShort(before, f[i], Written(f[i + 1..]), output.Length, whole);
          return;
        }
        i := i + 1;
      }
      assert f[|f|..] == [];
      Unclipped(output[..position], whole, output.Length);
    }
  }

  lemma Unclipped(text: Bytes, whole: Text, limit: nat)
    requires text + [] == whole && |text| <= limit
    ensures text == Clip(whole, limit) == whole
  {
    assert text + [] == text;
  }

  lemma RestWritten(f: Format, i: nat)
    requires i < |f|
    ensures Written(f[i..]) == f[i] + Written(f[i + 1..])
  {
    assert f[i..][0] == f[i] && f[i..][1..] == f[i + 1..];
  }

  // ---- the encoder ----

  function TagOf(v: Value): u8 {
    match v
    case BoolValue(_) => 1
    case I64Value(_) => 2
    case U64Value(_) => 3
    case F64Value(_) => 4
    case StrValue(_) => 5
    case DebugValue(_) => 6
    case DisplayValue(_) => 7
  }

  lemma PayloadOf(v: Value, l: WireEncoder.Limits)
    ensures PrintPayload(ImageOfValue(v, l)) ==
      match v
      case BoolValue(b) => [if b then 1 else 0]
      case I64Value(n) => Le(8, n)
      case U64Value(n) => Le(8, n)
      case F64Value(n) => Le(8, n)
      case StrValue(t) => PrintText(Clip(t, l.text))
      case DebugValue(f) => PrintText(Clip(Written(f), l.formatted))
      case DisplayValue(f) => PrintText(Clip(Written(f), l.formatted))
  {
  }

  lemma TagOfImage(v: Value, l: WireEncoder.Limits)
    ensures ValueTag(ImageOfValue(v, l)) == TagOf(v)
  {
  }

  class Encoder {
    const output: array<u8>
    const scratch: array<u8>
    const maxValueBytes: nat
    var position: nat
    var truncatedValues: u32

    ghost predicate Valid()
      reads this
    {
      && position <= output.Length && maxValueBytes <= U16_MAX
      && output != scratch
    }

    function Contents(): Bytes
      requires Valid()
      reads this, output
    {
      output[..position]
    }

    // The writer the buffer stands for.
    function Now(): Writer
      requires Valid()
      reads this, output
    {
      Ok(Contents())
    }

    function Limits(): Limits
      requires Valid()
      reads this
    {
      WireEncoder.Limits(maxValueBytes, Min(scratch.Length, maxValueBytes))
    }

    constructor (output: array<u8>, scratch: array<u8>, maxValueBytes: nat)
      requires output != scratch
      ensures Valid() && this.output == output && this.scratch == scratch
      ensures Limits() == LimitsOf(maxValueBytes, scratch.Length)
      ensures Now() == Ok([]) && truncatedValues == 0
    {
      this.output, this.scratch := output, scratch;
      this.maxValueBytes := Min(maxValueBytes, U16_MAX);
      position, truncatedValues := 0, 0;
    }

    method Reserve(count: nat) returns (o: Outcome)
      requires Valid()
      modifies this`position
      ensures Valid()
      ensures o == if old(position) + count <= output.Length then Pass else Fail(BufferTooSmall)
      ensures position == if o.Pass? then old(position) + count else old(position)
    {
      if position + count > output.Length {
        return Fail(BufferTooSmall);
      }
      position := position + count;
      return Pass;
    }

    method PutBytes(b: Bytes) returns (o: Outcome)
      requires Valid()
      modifies this`position, output
      ensures Valid() && Reflects(o, Contents(), Put(output.Length, old(Now()), b))
    {
      ghost var before := Contents();
      var start := position;
      :- Reserve(|b|);
      forall i | 0 <= i < |b| {
        output[start + i] := b[i];
      }
      assert Contents() == before + b;
      return Pass;
    }

    method PutTwo(a: Bytes, b: Bytes) returns (o: Outcome)
      requires Valid()
      modifies this`position, output
      ensures Valid() && Reflects(o, Contents(), Put(output.Length, old(Now()), a + b))
    {
      PutTwice(output.Length, Now(), a, b);
      :- PutBytes(a);
      o := PutBytes(b);
    }

    method Schema(t: Text) returns (o: Outcome)
      requires Valid()
      modifies this`position, output
      ensures Valid() && Reflects(o, Contents(), PutSchema(output.Length, old(Now()), t))
    {
      if |t| > U16_MAX {
        return Fail(SchemaStringTooLong);
      }
      o := PutTwo(Le(2, |t|), t);
    }

    method OptionalSchema(t: Option<Text>) returns (o: Outcome)
      requires Valid()
      modifies this`position, output
      ensures Valid() && Reflects(o, Contents(), PutDomain(output.Length, old(Now()), t))
    {
      if t.None? {
        o := PutBytes([0]);
        return;
      }
      :- PutBytes([1]);
      o := Schema(t.value);
    }

    method CountCut(cut: bool)
      modifies this`truncatedValues
      ensures truncatedValues == SatAdd(old(truncatedValues), if cut then 1 else 0)
    {
      if cut && truncatedValues < U32_MAX {
        truncatedValues := truncatedValues + 1;
      }
    }

    method Dynamic(t: Text) returns (o: Outcome)
      requires Valid()
      modifies this`position, this`truncatedValues, output
      ensures Valid()
      ensures Reflects(o, Contents(), Put(output.Length, old(Now()), PrintText(Clip(t, Limits().text))))
      ensures truncatedValues == SatAdd(old(truncatedValues), Cut(Some(t), Limits().text))
    {
      var length := FloorBoundary(t, Min(|t|, maxValueBytes));
      ClipWithin(t, maxValueBytes);
      CountCut(length != |t|);
      o := PutTwo(Le(2, length), t[..length]);
    }

    method OptionalDynamic(t: Option<Text>) returns (o: Outcome)
      requires Valid()
      modifies this`position, this`truncatedValues, output
      ensures Valid()
      ensures Reflects(o, Contents(), Put(output.Length, old(Now()), PrintOptional(ClipOptional(t, Limits().text))))
      ensures o.Pass? ==> truncatedValues == SatAdd(old(truncatedValues), Cut(t, Limits().text))
    {
      if t.None? {
        o := PutBytes([0]);
        return;
      }
      PutTwice(output.Length, Now(), [1], PrintText(Clip(t.value, Limits().text)));
      :- PutBytes([1]);
      o := Dynamic(t.value);
    }

    // Renders into the scratch buffer, then clips once more to the value limit.
    method Formatted(f: Format) returns (o: Outcome)
      requires Valid()
      modifies this`position, this`truncatedValues, output, scratch
      ensures Valid()
      ensures Reflects(o, Contents(), Put(output.Length, old(Now()), PrintText(Clip(Written(f), Limits().formatted))))
      ensures truncatedValues == SatAdd(old(truncatedValues), Cut(Some(Written(f)), Limits().formatted))
    {
      var writer := new ScratchWriter(scratch);
      writer.Render(f);
      var value := scratch[..writer.position];
      var length := FloorBoundary(value, Min(|value|, maxValueBytes));
      ClipWithin(value, maxValueBytes);
      ClipTwice(Written(f), scratch.Length, maxValueBytes);
      CountCut(writer.truncated || length != |value|);
      o := PutTwo(Le(2, length), value[..length]);
    }

    method OptionalFormatted(f: Option<Format>) returns (o: Outcome)
      requires Valid()
      modifies this`position, this`truncatedValues, output, scratch
      ensures Valid()
      ensures Reflects(o, Contents(),
                       Put(output.Length, old(Now()), PrintOptional(ClipOptional(Message(f), Limits().formatted))))
      ensures o.Pass? ==> truncatedValues == SatAdd(old(truncatedValues), Cut(Message(f), Limits().formatted))
    {
      if f.None? {
        o := PutBytes([0]);
        return;
      }
      PutTwice(output.Length, Now(), [1], PrintText(Clip(Written(f.value), Limits().formatted)));
      :- PutBytes([1]);
      o := Formatted(f.value);
    }

    method PutPayload(v: Value) returns (o: Outcome)
      requires Valid()
      modifies this`position, this`truncatedValues, output, scratch
      ensures Valid()
      ensures Reflects(o, Contents(), Put(output.Length, old(Now()), PrintPayload(ImageOfValue(v, Limits()))))
      ensures o.Pass? ==> truncatedValues == SatAdd(old(truncatedValues), CutsInValue(v, Limits()))
    {
      PayloadOf(v, Limits());
      match v
      case BoolValue(b) => o := PutBytes([if b then 1 else 0]);
      case I64Value(n) => o := PutBytes(Le(8, n));
      case U64Value(n) => o := PutBytes(Le(8, n));
      case F64Value(n) => o := PutBytes(Le(8, n));
      case StrValue(t) => o := Dynamic(t);
      case DebugValue(f) => o := Formatted(f);
      case DisplayValue(f) => o := Formatted(f);
    }

    method FieldTags(f: FieldRef) returns (o: Outcome)
      requires Valid()
      modifies this`position, output
      ensures Valid()
      ensures Reflects(o, Contents(), Put(output.Length, old(Now()),
        [PrivacyByte(f.metadata.privacy)] + [DetailByte(f.metadata.detail)] + [TagOf(f.value)]))
    {
      ghost var both := [PrivacyByte(f.metadata.privacy)] + [DetailByte(f.metadata.detail)];
      PutTwice(output.Length, Now(), both, [TagOf(f.value)]);
      :- PutTwo([PrivacyByte(f.metadata.privacy)], [DetailByte(f.metadata.detail)]);
      o := PutBytes([TagOf(f.value)]);
    }

    method FieldRest(f: FieldRef) returns (o: Outcome)
      requires Valid()
      modifies this`position, this`truncatedValues, output, scratch
      ensures Valid()
      ensures Reflects(o, Contents(), Put(output.Length, old(Now()),
        [PrivacyByte(f.metadata.privacy)] + [DetailByte(f.metadata.detail)] + [TagOf(f.value)]
        + PrintPayload(ImageOfValue(f.value, Limits()))))
      ensures o.Pass? ==> truncatedValues == SatAdd(old(truncatedValues), CutsInValue(f.value, Limits()))
    {
      ghost var tags := [PrivacyByte(f.metadata.privacy)] + [DetailByte(f.metadata.detail)] + [TagOf(f.value)];
      PutTwice(output.Length, Now(), tags, PrintPayload(ImageOfValue(f.value, Limits())));
      :- FieldTags(f);
      o := PutPayload(f.value);
    }

    method PutField(f: FieldRef) returns (o: Outcome)
      requires Valid()
      modifies this`position, this`truncatedValues, output, scratch
      ensures Valid()
      ensures Reflects(o, Contents(), WireEncoder.PutField(output.Length, old(Now()), ImageOfField(f, Limits())))
      ensures o.Pass? ==> truncatedValues == SatAdd(old(truncatedValues), CutsInValue(f.value, Limits()))
    {
      TagOfImage(f.value, Limits());
      :- Schema(f.metadata.name);
      o := FieldRest(f);
    }

    method PutLinks(links: seq<ContextToken>) returns (o: Outcome)
      requires Valid()
      modifies this`position, output
      ensures Valid() && Reflects(o, Contents(), WireEncoder.PutLinks(output.Length, old(Now()), links))
    {
      if |links| > U16_MAX {
        return Fail(TooManyLinks);
      }
      PutTwice(output.Length, Now(), Le(2, |links|), PrintMany(PrintToken, links));
      :- PutBytes(Le(2, |links|));
      o := PutTokens(links);
    }

    method PutTokens(links: seq<ContextToken>) returns (o: Outcome)
      requires Valid()
      modifies this`position, output
      ensures Valid() && Reflects(o, Contents(), Put(output.Length, old(Now()), PrintMany(PrintToken, links)))
    {
      ghost var start := Now();
      assert start.value + [] == start.value;
      for i := 0 to |links|
        invariant Valid() && Now() == Put(output.Length, start, PrintMany(PrintToken, links[..i]))
      {
        PutTwice(output.Length, start, PrintMany(PrintToken, links[..i]), PrintToken(links[i]));
        assert links[..i + 1][..i] == links[..i];
        PrefixIsShorter(PrintToken, links, i + 1);
        :- PutTwo(Le(8, links[i].id), Le(8, links[i].flags));
      }
      assert links[..|links|] == links;
      return Pass;
    }

    method PutNames(n: Names) returns (o: Outcome)
      requires Valid()
      modifies this`position, output
      ensures Valid() && Reflects(o, Contents(), WireEncoder.PutNames(output.Length, old(Now()), n))
    {
      o := Pass;
      :- Schema(n.eventName);
      :- Schema(n.package);
      :- Schema(n.target);
      o := Schema(n.moduleName);
    }

    method PutLocation(l: Option<Location>) returns (o: Outcome)
      requires Valid()
      modifies this`position, output
      ensures Valid() && Reflects(o, Contents(), WireEncoder.PutLocation(output.Length, old(Now()), l))
    {
      if l.None? {
        o := PutBytes([0]);
        return;
      }
      :- PutBytes([1]);
      :- Schema(l.value.file);
      o := PutTwo(Le(4, l.value.line), Le(4, l.value.column));
    }

    method PutIfRetained(f: Option<FieldRef>) returns (o: Outcome)
      requires Valid()
      modifies this`position, this`truncatedValues, output, scratch
      ensures Valid()
      ensures Reflects(o, Contents(), PutOrSkip(output.Length, old(Now()), f, Limits()))
      ensures o.Pass? ==> truncatedValues == SatAdd(old(truncatedValues), CutsOrNone(f, Limits()))
    {
      if !Retained(f) {
        return Pass;
      }
      o := PutField(f.value);
    }

    // Writes the fields that may be sent, in the event's order.
    method PutFields(fields: seq<Option<FieldRef>>) returns (o: Outcome)
      requires Valid()
      modifies this`position, this`truncatedValues, output, scratch
      ensures Valid()
      ensures Reflects(o, Contents(),
                       FieldsSoFar(output.Length, old(Now()), fields, Limits()))
      ensures o.Pass? ==> truncatedValues == SatAdd(old(truncatedValues), CutsSoFar(fields, Limits()))
    {
      ghost var start := Now();
      ghost var l := Limits();
      for i := 0 to |fields|
        invariant Valid() && Limits() == l
        invariant Now() == FieldsSoFar(output.Length, start, fields[..i], l)
        invariant truncatedValues == SatAdd(old(truncatedValues), CutsSoFar(fields[..i], l))
      {
        FieldStep(output.Length, start, fields, i, l);
        FailureIsFinal(output.Length, start, fields, i + 1, l);
        :- PutIfRetained(fields[i]);
      }
      assert fields[..|fields|] == fields;
      return Pass;
    }

    // Magic, version, and the flags and length that are patched in later.
    method PutPreamble() returns (o: Outcome)
      requires Valid()
      modifies this`position, output
      ensures Valid()
      ensures Reflects(o, Contents(), Put(output.Length, old(Now()), MAGIC + Le(2, ABI_VERSION) + Le(2, 0) + Le(4, 0)))
    {
      PutTwice(output.Length, Now(), MAGIC + Le(2, ABI_VERSION) + Le(2, 0), Le(4, 0));
      PutTwice(output.Length, Now(), MAGIC + Le(2, ABI_VERSION), Le(2, 0));
      :- PutTwo(MAGIC, Le(2, ABI_VERSION));
      :- PutBytes(Le(2, 0));
      o := PutBytes(Le(4, 0));
    }

    method PutCounters(c: Counters) returns (o: Outcome)
      requires Valid()
      modifies this`position, output
      ensures Valid() && Reflects(o, Contents(), Put(output.Length, old(Now()), PrintCounters(c)))
    {
      ghost var a := Le(8, c.sequence) + Le(8, c.droppedBefore);
      PutTwice(output.Length, Now(), a + Le(8, c.truncatedBefore) + Le(8, c.worker), PrintToken(c.context));
      PutTwice(output.Length, Now(), a + Le(8, c.truncatedBefore), Le(8, c.worker));
      PutTwice(output.Length, Now(), a, Le(8, c.truncatedBefore));
      :- PutTwo(Le(8, c.sequence), Le(8, c.droppedBefore));
      :- PutBytes(Le(8, c.truncatedBefore));
      :- PutBytes(Le(8, c.worker));
      o := PutTwo(Le(8, c.context.id), Le(8, c.context.flags));
    }

    method PutHead(c: Counters) returns (o: Outcome)
      requires Valid()
      modifies this`position, output
      ensures Valid() && Reflects(o, Contents(), Put(output.Length, old(Now()), PrintHead(Head(0, 0, c))))
    {
      PutTwice(output.Length, Now(), MAGIC + Le(2, ABI_VERSION) + Le(2, 0) + Le(4, 0), PrintCounters(c));
      :- PutPreamble();
      o := PutCounters(c);
    }

    method PutClasses(c: Classes) returns (o: Outcome)
      requires Valid()
      modifies this`position, output
      ensures Valid() && Reflects(o, Contents(), Put(output.Length, old(Now()), PrintClasses(c)))
    {
      PutTwice(output.Length, Now(), [SeverityByte(c.severity)] + [ClassByte(c.class_)], [KindByte(c.kind)]);
      :- PutTwo([SeverityByte(c.severity)], [ClassByte(c.class_)]);
      o := PutBytes([KindByte(c.kind)]);
    }

    method CountRetained(fields: seq<Option<FieldRef>>) returns (n: nat)
      ensures n == |Kept(fields)|
    {
      n := 0;
      for i := 0 to |fields|
        invariant n == |Kept(fields[..i])|
      {
        assert fields[..i + 1][..i] == fields[..i];
        if Retained(fields[i]) {
          n := n + 1;
        }
      }
      assert fields[..|fields|] == fields;
    }

    method PutFieldCount(omitted: u32, count: nat) returns (o: Outcome)
      requires Valid()
      modifies this`position, output
      ensures Valid() && Reflects(o, Contents(), WireEncoder.PutFieldCount(output.Length, old(Now()), omitted, count))
    {
      if count > U16_MAX {
        return Fail(TooManyFields);
      }
      o := PutTwo(Le(4, omitted), Le(2, count));
    }

    method PutOrigin(e: Envelope) returns (o: Outcome)
      requires Valid() && Contents() == []
      modifies this`position, output
      ensures Valid() && Reflects(o, Contents(), OriginWritten(output.Length, Image(e, Limits(), 0, 0)))
    {
      var m := e.event.metadata;
      :- PutHead(Counters(e.sequence, e.droppedBefore, e.truncatedBefore, e.identity.worker, e.event.context));
      :- PutLinks(e.links);
      :- PutClasses(Classes(m.severity, m.class_, m.kind));
      :- PutNames(Names(m.eventName, m.package, m.target, m.moduleName));
      o := OptionalSchema(m.domain);
    }

    method PutContents(e: Envelope) returns (o: Outcome)
      requires Valid()
      modifies this`position, this`truncatedValues, output, scratch
      ensures Valid()
      ensures Reflects(o, Contents(), ContentsWritten(output.Length, old(Now()), Image(e, Limits(), 0, 0)))
      ensures o.Pass? ==> truncatedValues == SatAdd(old(truncatedValues), CutsInContents(e, Limits()))
    {
      ghost var cap, w := output.Length, Image(e, Limits(), 0, 0);
      ghost var count := WireEncoder.PutFieldCount(cap, Now(), w.omitted, |w.fields|);
      ghost var fields := WireEncoder.PutFields(cap, count, w.fields);
      assert ContentsWritten(cap, Now(), w) == Put(cap, fields, PrintOptional(w.message));
      :- PutOmissions(e);
      assert Now() == count;
      :- PutFields(e.event.fields);
      assert Now() == fields;
      o := OptionalFormatted(e.event.message);
    }

    method PutOmissions(e: Envelope) returns (o: Outcome)
      requires Valid()
      modifies this`position, output
      ensures Valid()
      ensures Reflects(o, Contents(), WireEncoder.PutFieldCount(
        output.Length, old(Now()), OmittedFields(e), |Kept(e.event.fields)|))
    {
      var kept := CountRetained(e.event.fields);
      var declared := |e.event.metadata.fields|;
      var omitted := SatAdd(e.omittedFields, Min(if declared >= kept then declared - kept else 0, U32_MAX));
      o := PutFieldCount(omitted, kept);
    }

    // The whole frame, with flags and length still zero.
    method PutEnvelope(e: Envelope) returns (o: Outcome)
      requires Valid() && Contents() == [] && truncatedValues == 0
      modifies this`position, this`truncatedValues, output, scratch
      ensures Valid() && Reflects(o, Contents(), PutFrame(output.Length, Image(e, Limits(), 0, 0)))
      ensures o.Pass? ==> truncatedValues == SatAdd(0, Cuts(e, Limits()))
    {
      FrameInParts(output.Length, Image(e, Limits(), 0, 0));
      :- PutOrigin(e);
      :- OptionalDynamic(e.identity.test);
      :- PutLocation(e.event.metadata.location);
      o := PutContents(e);
    }

    method PatchAt(at: nat, b: Bytes)
      requires Valid() && at + |b| <= position
      modifies output
      ensures Contents() == old(Contents())[..at] + b + old(Contents())[at + |b|..]
    {
      ghost var before := Contents();
      forall i | 0 <= i < |b| {
        output[at + i] := b[i];
      }
      assert Contents() == before[..at] + b + before[at + |b|..];
    }

    // Patches the flags, then the length unless it does not fit its field.
    method Finish() returns (r: Result<Encoded, EncodeError>)
      requires Valid() && position >= 12
      modifies output
      ensures r == Seal(old(Now()), truncatedValues)
      ensures r.Ok? ==> |r.value.bytes| == position && Contents() == r.value.bytes
    {
      ghost var frame := Contents();
      PatchAt(6, Le(2, Flags(truncatedValues)));
      if position > U32_MAX {
        return Err(BufferTooSmall);
      }
      ghost var flagged := Contents();
      PatchAt(8, Le(4, position));
      PatchedTwice(frame, flagged, Flags(truncatedValues), position);
      r := Ok(Encoded(output[..position], truncatedValues));
    }
  }

  lemma PatchedTwice(frame: Bytes, flagged: Bytes, flags: u16, length: u32)
    requires |frame| >= 12 && flagged == frame[..6] + Le(2, flags) + frame[8..]
    ensures flagged[..8] + Le(4, length) + flagged[12..] == Patch(frame, flags, length)
  {
    assert flagged[..8] == frame[..6] + Le(2, flags);
    assert flagged[12..] == frame[12..];
  }

  // The part of `PutFrame` that comes before the test identity.
  function OriginWritten(cap: nat, w: Wire): Writer {
    var links := WireEncoder.PutLinks(cap, Put(cap, Ok([]), PrintHead(w.head)), w.links);
    PutDomain(cap, WireEncoder.PutNames(cap, Put(cap, links, PrintClasses(w.classes)), w.names), w.extras.domain)
  }

  // The part of `PutFrame` that comes after the location.
  function ContentsWritten(cap: nat, location: Writer, w: Wire): Writer {
    var count := WireEncoder.PutFieldCount(cap, location, w.omitted, |w.fields|);
    Put(cap, WireEncoder.PutFields(cap, count, w.fields), PrintOptional(w.message))
  }

  function CutsInContents(e: Envelope, l: WireEncoder.Limits): nat {
    CutsSoFar(e.event.fields, l) + Cut(Message(e.event.message), l.formatted)
  }

  lemma FrameInParts(cap: nat, w: Wire)
    ensures var test := Put(cap, OriginWritten(cap, w), PrintOptional(w.extras.test));
      PutFrame(cap, w) == ContentsWritten(cap, WireEncoder.PutLocation(cap, test, w.extras.location), w)
  {
  }

  // `encode_envelope`: writes the frame, then patches in its flags and its length.
  method EncodeEnvelope(e: Envelope, maxValueBytes: nat, output: array<u8>, scratch: array<u8>)
    returns (r: Result<Encoded, EncodeError>)
    requires output != scratch
    modifies output, scratch
    ensures r == Encoding(e, LimitsOf(maxValueBytes, scratch.Length), output.Length)
    ensures r.Ok? ==> |r.value.bytes| <= output.Length && output[..|r.value.bytes|] == r.value.bytes
    ensures r.Ok? ==> IsTelling(r.value, e, maxValueBytes, scratch.Length)
  {
    var encoder := new Encoder(output, scratch, maxValueBytes);
    var o := encoder.PutEnvelope(e);
    if o.Fail? {
      return Err(o.error);
    }
    HeadIsWritten(output.Length, Image(e, encoder.Limits(), 0, 0));
    r := encoder.Finish();
    if r.Ok? {
      EncodingTells(e, maxValueBytes, scratch.Length, output.Length, r.value);
    }
  }

  function PutOrSkip(cap: nat, w: Writer, f: Option<FieldRef>, l: WireEncoder.Limits): Writer {
    if Retained(f) then PutField(cap, w, ImageOfField(f.value, l)) else w
  }

  function CutsOrNone(f: Option<FieldRef>, l: WireEncoder.Limits): nat {
    if Retained(f) then CutsInValue(f.value.value, l) else 0
  }

  function FieldsSoFar(cap: nat, w: Writer, fields: seq<Option<FieldRef>>, l: WireEncoder.Limits): Writer {
    WireEncoder.PutFields(cap, w, ImageOfFields(Kept(fields), l))
  }

  function CutsSoFar(fields: seq<Option<FieldRef>>, l: WireEncoder.Limits): nat {
    CutsInFields(Kept(fields), l)
  }

  lemma FieldStep(cap: nat, w: Writer, fields: seq<Option<FieldRef>>, i: nat, l: WireEncoder.Limits)
    requires i < |fields|
    ensures var before, after := FieldsSoFar(cap, w, fields[..i], l), FieldsSoFar(cap, w, fields[..i + 1], l);
      after == PutOrSkip(cap, before, fields[i], l)
    ensures CutsSoFar(fields[..i + 1], l) == CutsSoFar(fields[..i], l) + CutsOrNone(fields[i], l)
  {
    var kept := Kept(fields[..i]);
    assert fields[..i + 1][..i] == fields[..i];
    if Retained(fields[i]) {
      assert Kept(fields[..i + 1]) == kept + [fields[i].value];
      assert (kept + [fields[i].value])[..|kept|] == kept;
      ImageOfSnoc(kept, fields[i].value, l);
    } else {
      assert kept + [] == kept;
    }
  }

  lemma ImageOfSnoc(kept: seq<FieldRef>, f: FieldRef, l: WireEncoder.Limits)
    ensures ImageOfFields(kept + [f], l) == ImageOfFields(kept, l) + [ImageOfField(f, l)]
    ensures ImageOfFields(kept + [f], l)[..|kept|] == ImageOfFields(kept, l)
  {
    assert (kept + [f])[..|kept|] == kept;
  }

  lemma {:induction false} PrefixIsShorter<T>(show: T -> Bytes, items: seq<T>, k: nat)
    requires k <= |items|
    ensures |PrintMany(show, items[..k])| <= |PrintMany(show, items)|
    decreases |items|
  {
    if k < |items| {
      var n := |items| - 1;
      PrefixIsShorter(show, items[..n], k);
      assert items[..n][..k] == items[..k];
    } else {
      assert items[..k] == items;
    }
  }

  lemma {:induction false} FieldFailureIsFinal(cap: nat, w: Writer, fields: seq<WireField>, k: nat)
    requires k <= |fields| && WireEncoder.PutFields(cap, w, fields[..k]).Err?
    ensures WireEncoder.PutFields(cap, w, fields) == WireEncoder.PutFields(cap, w, fields[..k])
    decreases |fields| - k
  {
    if k < |fields| {
      FailureStep(cap, w, fields, k);
      FieldFailureIsFinal(cap, w, fields, k + 1);
    } else {
      assert fields[..k] == fields;
    }
  }

  lemma FailureStep(cap: nat, w: Writer, fields: seq<WireField>, k: nat)
    requires k < |fields| && WireEncoder.PutFields(cap, w, fields[..k]).Err?
    ensures WireEncoder.PutFields(cap, w, fields[..k + 1]) == WireEncoder.PutFields(cap, w, fields[..k])
  {
    assert fields[..k + 1][..k] == fields[..k];
    AfterFailure(cap, WireEncoder.PutFields(cap, w, fields[..k]), fields[k]);
  }

  lemma AfterFailure(cap: nat, w: Writer, f: WireField)
    requires w.Err?
    ensures WireEncoder.PutField(cap, w, f) == w
  {
  }

  // A field that cannot be written decides the outcome for the whole list.
  lemma FailureIsFinal(cap: nat, w: Writer, fields: seq<Option<FieldRef>>, k: nat, l: WireEncoder.Limits)
    requires k <= |fields|
    ensures FieldsSoFar(cap, w, fields[..k], l).Err? ==>
      FieldsSoFar(cap, w, fields, l) == FieldsSoFar(cap, w, fields[..k], l)
  {
    KeptInOrder(fields[..k], fields[k..]);
    assert fields[..k] + fields[k..] == fields;
    var part, all := ImageOfFields(Kept(fields[..k]), l), ImageOfFields(Kept(fields), l);
    assert all[..|part|] == part;
    if FieldsSoFar(cap, w, fields[..k], l).Err? {
      FieldFailureIsFinal(cap, w, all, |part|);
    }
  }
}
