// What a host gets out of the wire: exact conditions for encoding to succeed, the round
// trip through the parser, and the loss counters a reader reconstructs a gap from.

module WireTransport {
  import opened Basics
  import opened Utf8
  import opened Facade
  import opened WireFormat
  import opened WireEncoder
  import opened WireMeaning
  import opened WireBuffer

  // ---- one envelope ----

  // Encoding succeeds exactly when counts and schema strings fit their length fields,
  // the length fits 32 bits and the frame fits the buffer.
  lemma EncodesExactly(e: Envelope, l: Limits, cap: nat)
    ensures Encoding(e, l, cap).Ok? <==>
      Countable(e) && |Print(Image(e, l, 0, 0))| <= cap && |Print(Image(e, l, 0, 0))| <= U32_MAX
    ensures Countable(e) <==> WithinLimits(e)
  {
    CountableIsWithinLimits(e);
    EncodingOutcome(e, l, cap);
    RefusalIsCount(e, l);
  }

  function FirstRefusal(e: Envelope): EncodeError {
    if |e.links| > U16_MAX then TooManyLinks
    else if !SchemaShort(e.event.metadata) then SchemaStringTooLong
    else if |Kept(e.event.fields)| > U16_MAX then TooManyFields
    else if !Countable(e) then SchemaStringTooLong
    else BufferTooSmall
  }

  // With room to spare the error names the first limit that is broken; otherwise a
  // countable envelope that fails, fails for want of room.
  lemma ErrorIsTheFirstRefusal(e: Envelope, l: Limits, cap: nat)
    ensures Encoding(e, l, cap).Err? && |Print(Image(e, l, 0, 0))| <= cap ==> Encoding(e, l, cap).error == FirstRefusal(e)
    ensures Encoding(e, l, cap).Err? && Countable(e) ==> Encoding(e, l, cap).error == BufferTooSmall
    ensures Encoding(e, l, cap).Err? && |Print(Image(e, l, 0, 0))| <= cap ==> Explains(Encoding(e, l, cap).error, e)
  {
    EncodingOutcome(e, l, cap);
    RefusalIsCount(e, l);
    FirstRefusalIs(e, l);
    FirstRefusalExplains(e);
  }

  lemma FirstRefusalExplains(e: Envelope)
    ensures Explains(FirstRefusal(e), e)
  {
    KeptAreSendable(e.event.fields);
    NamesAreKept(e);
    CountableIsWithinLimits(e);
  }

  lemma FirstRefusalIs(e: Envelope, l: Limits)
    ensures Refusal(Image(e, l, 0, 0)).Some? ==> Refusal(Image(e, l, 0, 0)).value == FirstRefusal(e)
    ensures Countable(e) ==> FirstRefusal(e) == BufferTooSmall
  {
    RefusalIsCount(e, l);
  }

  // Parsing a successful encoding, whatever bytes follow it, gives back the envelope
  // with its secrets removed and its strings clipped, and leaves exactly those bytes.
  // The patched length is the frame's own size and the flag says whether anything was cut.
  lemma RoundTrip(e: Envelope, maxValueBytes: nat, scratch: nat, cap: nat, encoded: Encoded, rest: Bytes)
    ensures Encoding(e, LimitsOf(maxValueBytes, scratch), cap) == Ok(encoded) ==>
      (&& |encoded.bytes| <= U32_MAX && |encoded.bytes| <= cap
       && Parse(encoded.bytes + rest) == Got(FrameFor(e, LimitsOf(maxValueBytes, scratch), |encoded.bytes|), rest))
    ensures Encoding(e, LimitsOf(maxValueBytes, scratch), cap) == Ok(encoded) ==>
      (var parsed := Parse(encoded.bytes + rest);
       && parsed.Got? && parsed.rest == rest
       && TellsAll(parsed.value, encoded, e, maxValueBytes, scratch))
  {
    EncodingTells(e, maxValueBytes, scratch, cap, encoded);
    var l := LimitsOf(maxValueBytes, scratch);
    EncodedBytes(e, l, cap, encoded);
    if IsEncodingOf(encoded, e, l, cap) {
      ImageFits(e, l, Flags(Cuts(e, l)), |encoded.bytes|);
      ReadsFrame(FrameFor(e, l, |encoded.bytes|), rest);
    }
  }

  // Nothing secret is in what a host parses.
  lemma NoSecretOnTheWire(e: Envelope, l: Limits, flags: u16, length: u32, f: WireField)
    requires f in Image(e, l, flags, length).fields
    ensures f.privacy != Secret
    ensures exists r: FieldRef :: Some(r) in e.event.fields && f == ImageOfField(r, l)
  {
    var kept := Kept(e.event.fields);
    var i :| 0 <= i < |kept| && ImageOfFields(kept, l)[i] == f;
    assert kept[i] in kept;
  }

  predicate ValueIsCut(v: Value, l: Limits) {
    CutsInValue(v, l) == 1
  }

  lemma {:induction false} SomeFieldIsCut(fields: seq<FieldRef>, l: Limits)
    ensures CutsInFields(fields, l) > 0 <==> exists f | f in fields :: ValueIsCut(f.value, l)
  {
    if fields != [] {
      var n := |fields| - 1;
      SomeFieldIsCut(fields[..n], l);
      assert fields == fields[..n] + [fields[n]];
      assert CutsInValue(fields[n].value, l) <= 1;
      if ValueIsCut(fields[n].value, l) {
        assert fields[n] in fields;
      }
    }
  }

  // The flag is raised exactly when the test identity, a retained value or the message
  // is shorter on the wire than in the event.
  lemma FlagMeansCut(e: Envelope, l: Limits)
    ensures Flags(Cuts(e, l)) == FLAG_TRUNCATED <==>
      || (e.identity.test.Some? && ClipOptional(e.identity.test, l.text) != e.identity.test)
      || (exists f | f in Kept(e.event.fields) :: ValueIsCut(f.value, l))
      || (e.event.message.Some? && ClipOptional(Message(e.event.message), l.formatted) != Message(e.event.message))
  {
    SomeFieldIsCut(Kept(e.event.fields), l);
  }

  // ---- the transport's counters ----

  datatype HostStatus = Accepted | Unavailable | VersionMismatch | Dropped | HostError(code: int)

  // One call: `encode` hands the frame to its caller (no host), `emit` to the host,
  // whose answer is part of the attempt.
  datatype Attempt = Attempt(
    event: EventRef,
    links: seq<ContextToken>,
    identity: Identity,
    cap: nat,
    scratch: nat,
    host: Option<HostStatus>)

  datatype Counts = Counts(sequence: u64, dropped: u64, truncated: u64)

  const FRESH := Counts(0, 0, 0)

  const TWO_TO_64: nat := 0x1_0000_0000_0000_0000

  // Atomic addition wraps around.
  function Plus(a: u64, b: u64): u64 {
    if a + b < TWO_TO_64 then a + b else a + b - TWO_TO_64
  }

  // The counter that stands for a true count.
  function Wrap(n: nat): u64 {
    n % TWO_TO_64
  }

  function EnvelopeNow(c: Counts, a: Attempt): Envelope {
    Envelope(a.event, Plus(c.sequence, 1), c.dropped, c.truncated, 0, a.links, a.identity)
  }

  function Attempted(c: Counts, a: Attempt, maxValueBytes: nat): Result<Encoded, EncodeError> {
    Encoding(EnvelopeNow(c, a), LimitsOf(maxValueBytes, a.scratch), a.cap)
  }

  // An attempt arrives unless it could not be encoded or the host did not accept it.
  predicate Arrives(r: Result<Encoded, EncodeError>, host: Option<HostStatus>) {
    r.Ok? && (host.Some? ==> host.value == Accepted)
  }

  function TruncatedBy(r: Result<Encoded, EncodeError>): u32 {
    if r.Ok? then r.value.truncatedValues else 0
  }

  function After(c: Counts, r: Result<Encoded, EncodeError>, host: Option<HostStatus>): Counts {
    Counts(Plus(c.sequence, 1),
           Plus(c.dropped, if Arrives(r, host) then 0 else 1),
           Plus(c.truncated, TruncatedBy(r)))
  }

  class Transport {
    const maxValueBytes: nat
    var nextSequence: u64
    var dropped: u64
    var truncated: u64

    function Now(): Counts
      reads this
    {
      Counts(nextSequence, dropped, truncated)
    }

    constructor (maxValueBytes: nat)
      ensures Now() == FRESH && this.maxValueBytes == maxValueBytes
    {
      this.maxValueBytes := maxValueBytes;
      nextSequence, dropped, truncated := 0, 0, 0;
    }

    method Encode(event: EventRef, links: seq<ContextToken>, identity: Identity, output: array<u8>, scratch: array<u8>)
      returns (r: Result<Encoded, EncodeError>)
      requires output != scratch
      modifies this, output, scratch
      ensures r == Attempted(old(Now()), Attempt(event, links, identity, output.Length, scratch.Length, None), maxValueBytes)
      ensures Now() == After(old(Now()), r, None)
      ensures r.Ok? ==> |r.value.bytes| <= output.Length && output[..|r.value.bytes|] == r.value.bytes
      ensures nextSequence == Plus(old(nextSequence), 1)
      ensures dropped == (if r.Ok? then old(dropped) else Plus(old(dropped), 1))
      ensures truncated == (if r.Ok? then Plus(old(truncated), r.value.truncatedValues) else old(truncated))
    {
      nextSequence := Plus(nextSequence, 1);
      var e := Envelope(event, nextSequence, dropped, truncated, 0, links, identity);
      r := EncodeEnvelope(e, maxValueBytes, output, scratch);
      if r.Ok? {
        truncated := Plus(truncated, r.value.truncatedValues);
      } else {
        dropped := Plus(dropped, 1);
      }
    }

    // `host` is what the import would answer.
    method Emit(event: EventRef, links: seq<ContextToken>, identity: Identity, output: array<u8>, scratch: array<u8>,
                host: HostStatus)
      returns (r: Result<HostStatus, EncodeError>, ghost encoded: Result<Encoded, EncodeError>)
      requires output != scratch
      modifies this, output, scratch
      ensures encoded
        == Attempted(old(Now()), Attempt(event, links, identity, output.Length, scratch.Length, None), maxValueBytes)
      ensures Now() == After(old(Now()), encoded, Some(host))
      ensures nextSequence == Plus(old(nextSequence), 1)
      ensures dropped == (if r == Ok(Accepted) then old(dropped) else Plus(old(dropped), 1))
      ensures r == match encoded case Ok(_) => Ok(host) case Err(x) => Err(x)
    {
      var frame := Encode(event, links, identity, output, scratch);
      encoded := frame;
      if frame.Err? {
        return Err(frame.error), encoded;
      }
      if host != Accepted {
        dropped := Plus(dropped, 1);
      }
      return Ok(host), encoded;
    }
  }

  // ---- whole runs ----

  // How an attempt is encoded, given the counters it finds. What the counters promise
  // does not depend on it.
  type EncodeFn = (Counts, Attempt) -> Result<Encoded, EncodeError>

  function Run(encode: EncodeFn, attempts: seq<Attempt>): Counts {
    if attempts == [] then FRESH
    else
      var c, a := Run(encode, attempts[..|attempts| - 1]), attempts[|attempts| - 1];
      After(c, encode(c, a), a.host)
  }

  function ResultAt(encode: EncodeFn, attempts: seq<Attempt>, k: nat): Result<Encoded, EncodeError>
    requires k < |attempts|
  {
    encode(Run(encode, attempts[..k]), attempts[k])
  }

  predicate ArrivesAt(encode: EncodeFn, attempts: seq<Attempt>, k: nat)
    requires k < |attempts|
  {
    Arrives(ResultAt(encode, attempts, k), attempts[k].host)
  }

  function Arrivals(encode: EncodeFn, attempts: seq<Attempt>): (n: nat)
    ensures n <= |attempts|
  {
    if attempts == [] then 0
    else
      var n := |attempts| - 1;
      Arrivals(encode, attempts[..n]) + (if ArrivesAt(encode, attempts, n) then 1 else 0)
  }

  function TruncatedTotal(encode: EncodeFn, attempts: seq<Attempt>): nat {
    if attempts == [] then 0
    else
      var n := |attempts| - 1;
      TruncatedTotal(encode, attempts[..n]) + TruncatedBy(ResultAt(encode, attempts, n))
  }

  lemma WrapAdds(a: nat, b: u64)
    ensures Plus(Wrap(a), b) == Wrap(a + b)
  {
  }

  // Over every run: numbers are handed out one by one, and what was dropped is exactly
  // what did not arrive.
  lemma {:induction false} CountsAreExact(encode: EncodeFn, attempts: seq<Attempt>)
    ensures Run(encode, attempts).sequence == Wrap(|attempts|)
    ensures Run(encode, attempts).dropped == Wrap(|attempts| - Arrivals(encode, attempts))
    ensures Run(encode, attempts).truncated == Wrap(TruncatedTotal(encode, attempts))
  {
    if attempts != [] {
      var n := |attempts| - 1;
      CountsAreExact(encode, attempts[..n]);
      WrapAdds(n, 1);
      WrapAdds(n - Arrivals(encode, attempts[..n]), if ArrivesAt(encode, attempts, n) then 0 else 1);
      WrapAdds(TruncatedTotal(encode, attempts[..n]), TruncatedBy(ResultAt(encode, attempts, n)));
    }
  }

  function Encoder(maxValueBytes: nat): EncodeFn {
    (c: Counts, a: Attempt) => Attempted(c, a, maxValueBytes)
  }

  lemma FrameParses(c: Counts, a: Attempt, maxValueBytes: nat, encoded: Encoded, rest: Bytes)
    requires Attempted(c, a, maxValueBytes) == Ok(encoded)
    ensures |encoded.bytes| <= U32_MAX
    ensures Parse(encoded.bytes + rest) == Got(FrameOf(c, a, maxValueBytes, |encoded.bytes|), rest)
  {
    RoundTrip(EnvelopeNow(c, a), maxValueBytes, a.scratch, a.cap, encoded, rest);
  }

  lemma GapIsTold(encode: EncodeFn, earlier: seq<Attempt>, a: Attempt, maxValueBytes: nat, length: u32)
    ensures GapTold(encode, earlier, FrameOf(Run(encode, earlier), a, maxValueBytes, length).head.counters)
  {
    CountsAreExact(encode, earlier);
    WrapAdds(|earlier|, 1);
  }

  // A frame that arrives tells its reader its own number, how many earlier events did
  // not arrive, and how many values earlier frames cut.
  lemma ReaderReconstructsTheGap(attempts: seq<Attempt>, k: nat, maxValueBytes: nat, encoded: Encoded, rest: Bytes)
    requires k < |attempts|
    ensures ResultAt(Encoder(maxValueBytes), attempts, k) == Ok(encoded) ==>
      (var parsed := Parse(encoded.bytes + rest);
       && parsed.Got? && parsed.rest == rest && parsed.value.head.length == |encoded.bytes|
       && GapTold(Encoder(maxValueBytes), attempts[..k], parsed.value.head.counters)
       && TellsAttempt(parsed.value, Run(Encoder(maxValueBytes), attempts[..k]), attempts[k], maxValueBytes))
  {
    if ResultAt(Encoder(maxValueBytes), attempts, k) == Ok(encoded) {
      var c := Run(Encoder(maxValueBytes), attempts[..k]);
      FrameParses(c, attempts[k], maxValueBytes, encoded, rest);
      AttemptIsTold(c, attempts[k], maxValueBytes, encoded);
      GapIsTold(Encoder(maxValueBytes), attempts[..k], attempts[k], maxValueBytes, |encoded.bytes|);
    }
  }

  // The frame tells the attempt's own event, links and identity.
  ghost predicate TellsAttempt(w: Wire, c: Counts, a: Attempt, maxValueBytes: nat) {
    Tells(w, Envelope(a.event, Plus(c.sequence, 1), c.dropped, c.truncated, 0, a.links, a.identity), maxValueBytes, a.scratch)
  }

  lemma AttemptIsTold(c: Counts, a: Attempt, maxValueBytes: nat, encoded: Encoded)
    requires Attempted(c, a, maxValueBytes) == Ok(encoded)
    ensures |encoded.bytes| <= U32_MAX
    ensures TellsAttempt(FrameOf(c, a, maxValueBytes, |encoded.bytes|), c, a, maxValueBytes)
  {
    EncodingTells(EnvelopeNow(c, a), maxValueBytes, a.scratch, a.cap, encoded);
  }

  predicate GapTold(encode: EncodeFn, earlier: seq<Attempt>, c: Counters) {
    && c.sequence == Wrap(|earlier| + 1)
    && c.droppedBefore == Wrap(|earlier| - Arrivals(encode, earlier))
    && c.truncatedBefore == Wrap(TruncatedTotal(encode, earlier))
  }

  // ---- the stream a host mirrors ----

  // The frames that arrive, end to end.
  function Stream(encode: EncodeFn, attempts: seq<Attempt>): Bytes {
    if attempts == [] then []
    else
      var n := |attempts| - 1;
      Stream(encode, attempts[..n])
      + (if ArrivesAt(encode, attempts, n) then ResultAt(encode, attempts, n).value.bytes else [])
  }

  function FrameOf(c: Counts, a: Attempt, maxValueBytes: nat, length: u32): Wire {
    FrameFor(EnvelopeNow(c, a), LimitsOf(maxValueBytes, a.scratch), length)
  }

  // The frame an attempt's encoding stands for.
  type FrameFn = (Counts, Attempt, Encoded) -> Wire

  function Framer(maxValueBytes: nat): FrameFn {
    (c: Counts, a: Attempt, x: Encoded) => FrameOf(c, a, maxValueBytes, Min(|x.bytes|, U32_MAX))
  }

  function Arrived(encode: EncodeFn, frame: FrameFn, attempts: seq<Attempt>): seq<Wire> {
    if attempts == [] then []
    else
      var n := |attempts| - 1;
      Arrived(encode, frame, attempts[..n])
      + (if ArrivesAt(encode, attempts, n)
         then [frame(Run(encode, attempts[..n]), attempts[n], ResultAt(encode, attempts, n).value)] else [])
  }

  lemma FrameIsPrinted(c: Counts, a: Attempt, maxValueBytes: nat, encoded: Encoded)
    requires Attempted(c, a, maxValueBytes) == Ok(encoded)
    ensures |encoded.bytes| <= U32_MAX
    ensures Print(FrameOf(c, a, maxValueBytes, |encoded.bytes|)) == encoded.bytes
    ensures Fits(FrameOf(c, a, maxValueBytes, |encoded.bytes|))
  {
    var e, l := EnvelopeNow(c, a), LimitsOf(maxValueBytes, a.scratch);
    EncodedBytes(e, l, a.cap, encoded);
    ImageFits(e, l, Flags(Cuts(e, l)), |encoded.bytes|);
  }

  lemma {:induction false} StreamIsPrinted(
      encode: EncodeFn, frame: FrameFn, show: Wire -> Bytes, fits: Wire -> bool, attempts: seq<Attempt>)
    requires forall c, a, x | encode(c, a) == Ok(x) :: show(frame(c, a, x)) == x.bytes && fits(frame(c, a, x))
    ensures Stream(encode, attempts) == PrintMany(show, Arrived(encode, frame, attempts))
    ensures forall w | w in Arrived(encode, frame, attempts) :: fits(w)
  {
    if attempts != [] {
      var n := |attempts| - 1;
      var c, a, r := Run(encode, attempts[..n]), attempts[n], ResultAt(encode, attempts, n);
      var earlier := Arrived(encode, frame, attempts[..n]);
      StreamIsPrinted(encode, frame, show, fits, attempts[..n]);
      if ArrivesAt(encode, attempts, n) {
        assert encode(c, a) == Ok(r.value);
        assert (earlier + [frame(c, a, r.value)])[..|earlier|] == earlier;
      } else {
        assert earlier + [] == earlier;
        assert Stream(encode, attempts[..n]) + [] == Stream(encode, attempts[..n]);
      }
    }
  }

  // A host that mirrors every arriving frame end to end reads all of them back, in order.
  lemma HostReadsTheStream(attempts: seq<Attempt>, maxValueBytes: nat, rest: Bytes)
    ensures var frames := Arrived(Encoder(maxValueBytes), Framer(maxValueBytes), attempts);
      TakeMany(Parse, |frames|, Stream(Encoder(maxValueBytes), attempts) + rest) == Got(frames, rest)
  {
    EveryFrameIsPrinted(maxValueBytes);
    StreamIsPrinted(Encoder(maxValueBytes), Framer(maxValueBytes), Print, Fits, attempts);
    ReadsStream(Arrived(Encoder(maxValueBytes), Framer(maxValueBytes), attempts), rest);
  }

  lemma EveryFrameIsPrinted(maxValueBytes: nat)
    ensures forall c, a, x | Encoder(maxValueBytes)(c, a) == Ok(x) ::
      Print(Framer(maxValueBytes)(c, a, x)) == x.bytes && Fits(Framer(maxValueBytes)(c, a, x))
  {
    forall c, a, x | Encoder(maxValueBytes)(c, a) == Ok(x)
      ensures Print(Framer(maxValueBytes)(c, a, x)) == x.bytes && Fits(Framer(maxValueBytes)(c, a, x))
    {
      FramerIsFaithful(c, a, maxValueBytes, x);
    }
  }

  lemma FramerIsFaithful(c: Counts, a: Attempt, maxValueBytes: nat, x: Encoded)
    requires Encoder(maxValueBytes)(c, a) == Ok(x)
    ensures Print(Framer(maxValueBytes)(c, a, x)) == x.bytes && Fits(Framer(maxValueBytes)(c, a, x))
  {
    var w := Framer(maxValueBytes)(c, a, x);
    assert PrintsAs(w, x) by {
      FrameIsPrinted(c, a, maxValueBytes, x);
    }
  }

  ghost predicate PrintsAs(w: Wire, x: Encoded) {
    Print(w) == x.bytes && Fits(w)
  }
}
