// What the scanners make of an arbitrary input, accepted or not: how a format string is
// cut up and where an unclosed placeholder begins, and which argument an error names.

module LformatErrors {
  import opened Basics
  import opened LformatArgs
  import opened LformatScan

  // ---- format strings ----

  // A stretch of the format string: copied as it stands, a doubled brace, a placeholder.
  datatype Stretch = Verbatim(text: string) | Doubled(c: char) | Named(key: string)

  function Spelled(p: Stretch): string {
    match p
    case Verbatim(text) => text
    case Doubled(c) => [c, c]
    case Named(key) => "{" + key + "}"
  }

  function SpelledAll(pieces: seq<Stretch>): string {
    if pieces == [] then [] else Spelled(pieces[0]) + SpelledAll(pieces[1..])
  }

  // A backslash and what belongs to it: the next character, and for `\u{` everything up
  // to the closing brace, or to the end of the string where that is missing.
  predicate IsEscape(text: string, rest: string) {
    || (text == "\\" && rest == [])
    || (|text| == 2 && text[0] == '\\' && !(text[1] == 'u' && rest != [] && rest[0] == '{'))
    || (|text| > 3 && text[..3] == "\\u{" && text[|text| - 1] == '}' && '}' !in text[..|text| - 1])
    || (|text| >= 3 && text[..3] == "\\u{" && '}' !in text && rest == [])
  }

  // An ordinary character; a closing brace is one unless another follows.
  predicate IsOrdinary(c: char, rest: string) {
    c != '\\' && c != '{' && (c == '}' ==> rest == [] || rest[0] != '}')
  }

  predicate IsStretch(p: Stretch, rest: string) {
    match p
    case Verbatim(text) => (|text| == 1 && IsOrdinary(text[0], rest)) || IsEscape(text, rest)
    case Doubled(c) => c == '{' || c == '}'
    case Named(key) => '}' !in key && (key == [] || key[0] != '{')
  }

  // The pieces one after the other, with `after` behind them.
  predicate AreStretches(pieces: seq<Stretch>, after: string) {
    pieces == []
    || (IsStretch(pieces[0], SpelledAll(pieces[1..]) + after) && AreStretches(pieces[1..], after))
  }

  // The text and the placeholders a list of pieces stands for.
  datatype Item = Char(c: char) | Use(key: string)

  function Chars(text: string): seq<Item> {
    seq(|text|, i requires 0 <= i < |text| => Char(text[i]))
  }

  function ItemsOfStretches(pieces: seq<Stretch>): seq<Item> {
    if pieces == [] then []
    else
      (match pieces[0]
       case Verbatim(text) => Chars(text)
       case Doubled(c) => [Char(c)]
       case Named(key) => [Use(key)])
      + ItemsOfStretches(pieces[1..])
  }

  function ItemsOfSegments(segments: seq<Segment>): seq<Item> {
    if segments == [] then []
    else
      ItemsOfSegments(segments[..|segments| - 1])
      + (match segments[|segments| - 1]
         case Literal(text) => Chars(text)
         case Placeholder(key) => [Use(key)])
  }

  // The scanner's own cutting, up to an unclosed placeholder.
  function Cutting(s: string): seq<Stretch>
    decreases |s|
  {
    if s == [] then []
    else match StepAt(s)
      case Copy(n) => [Verbatim(s[..n])] + Cutting(s[n..])
      case Brace(c) => [Doubled(c)] + Cutting(s[2..])
      case Name(n) => [Named(s[1..n - 1])] + Cutting(s[n..])
      case Unclosed => []
  }

  function Uncut(s: string): string
    decreases |s|
  {
    if s == [] then []
    else match StepAt(s)
      case Copy(n) => Uncut(s[n..])
      case Brace(c) => Uncut(s[2..])
      case Name(n) => Uncut(s[n..])
      case Unclosed => s
  }

  lemma FirstStretch(s: string)
    requires s != []
    ensures StepAt(s).Copy? ==> var n := StepAt(s).n; IsStretch(Verbatim(s[..n]), s[n..]) && s == s[..n] + s[n..]
    ensures StepAt(s).Brace? ==> IsStretch(Doubled(StepAt(s).c), s[2..]) && s == [StepAt(s).c, StepAt(s).c] + s[2..]
    ensures StepAt(s).Name? ==>
      var n := StepAt(s).n; IsStretch(Named(s[1..n - 1]), s[n..]) && s == "{" + s[1..n - 1] + "}" + s[n..]
    ensures StepAt(s).Unclosed? ==> IsUnclosed(s)
  {
    if s[0] == '\\' {
      FirstEscape(s);
    } else if StepAt(s).Name? {
      FirstName(s);
    }
  }

  lemma FirstName(s: string)
    requires s != [] && StepAt(s).Name?
    ensures var n := StepAt(s).n; IsStretch(Named(s[1..n - 1]), s[n..]) && s == "{" + s[1..n - 1] + "}" + s[n..]
  {
    BraceFound(s[1..]);
    var n := StepAt(s).n;
    assert s[1..n - 1] == s[1..][..n - 2] && s[n - 1] == '}';
  }

  lemma FirstEscape(s: string)
    requires s != [] && s[0] == '\\'
    ensures IsEscape(s[..EscapeLength(s)], s[EscapeLength(s)..])
  {
    var n := EscapeLength(s);
    if |s| > 2 && s[1] == 'u' && s[2] == '{' {
      var tail := s[2..];
      assert s[..n] == ['\\', 'u'] + tail[..n - 2];
      if Closes(tail) {
        BraceFound(tail);
        assert s[..n][..n - 1] == ['\\', 'u'] + tail[..n - 3];
      } else {
        BraceMissing(tail);
        assert tail[..n - 2] == tail;
      }
    }
  }

  // The pieces and what is left uncut make up the string; nothing is left unless a
  // placeholder is never closed.
  lemma {:induction false} CuttingIsFaithful(s: string)
    ensures SpelledAll(Cutting(s)) + Uncut(s) == s && AreStretches(Cutting(s), Uncut(s))
    ensures Uncut(s) != [] ==> IsUnclosed(Uncut(s))
    decreases |s|, 0
  {
    if s != [] {
      FirstStretch(s);
      match StepAt(s)
      case Copy(n) => CuttingStep(s, Verbatim(s[..n]), s[n..]);
      case Brace(c) => CuttingStep(s, Doubled(c), s[2..]);
      case Name(n) => CuttingStep(s, Named(s[1..n - 1]), s[n..]);
      case Unclosed =>
    }
  }

  lemma {:induction false} CuttingStep(s: string, p: Stretch, rest: string)
    requires |rest| < |s| && Cutting(s) == [p] + Cutting(rest) && Uncut(s) == Uncut(rest)
    requires IsStretch(p, rest) && s == Spelled(p) + rest
    ensures SpelledAll(Cutting(s)) + Uncut(s) == s && AreStretches(Cutting(s), Uncut(s))
    ensures Uncut(s) != [] ==> IsUnclosed(Uncut(s))
    decreases |rest|, 1
  {
    CuttingIsFaithful(rest);
    assert ([p] + Cutting(rest))[1..] == Cutting(rest);
    Assoc(Spelled(p), SpelledAll(Cutting(rest)), Uncut(rest));
  }

  lemma FlushedItems(done: seq<Segment>, literal: string)
    ensures ItemsOfSegments(Flush(done, literal)) == ItemsOfSegments(done) + Chars(literal)
  {
    if literal == [] {
      assert ItemsOfSegments(done) + Chars([]) == ItemsOfSegments(done);
    } else {
      assert (done + [Segment.Literal(literal)])[..|done|] == done;
    }
  }

  lemma CharsBoth(x: string, y: string)
    ensures Chars(x + y) == Chars(x) + Chars(y)
  {
  }

  // Scanning succeeds unless something is left uncut, and then the segments hold the
  // pieces' text and placeholders, in order.
  lemma {:induction false} ScanKeepsItems(s: string, literal: string, done: seq<Segment>)
    ensures Scan(s, literal, done).Ok? <==> Uncut(s) == []
    ensures Scan(s, literal, done).Ok? ==>
      ItemsOfSegments(Scan(s, literal, done).value) == ItemsOfSegments(done) + Chars(literal) + ItemsOfStretches(Cutting(s))
    decreases |s|
  {
    var before := ItemsOfSegments(done) + Chars(literal);
    if s == [] {
      FlushedItems(done, literal);
      assert before + [] == before;
    } else {
      match StepAt(s)
      case Copy(n) =>
        ScanKeepsItems(s[n..], literal + s[..n], done);
        CharsBoth(literal, s[..n]);
        ConsItems(ItemsOfSegments(done), Chars(literal), Chars(s[..n]), Verbatim(s[..n]), Cutting(s[n..]));
      case Brace(c) =>
        ScanKeepsItems(s[2..], literal + [c], done);
        CharsBoth(literal, [c]);
        assert Chars([c]) == [Char(c)];
        ConsItems(ItemsOfSegments(done), Chars(literal), [Char(c)], Doubled(c), Cutting(s[2..]));
      case Name(n) =>
        var key := s[1..n - 1];
        var flushed := Flush(done, literal);
        ScanKeepsItems(s[n..], [], flushed + [Placeholder(key)]);
        FlushedItems(done, literal);
        assert (flushed + [Placeholder(key)])[..|flushed|] == flushed;
        assert Chars([]) == [];
        ConsItems(ItemsOfSegments(done), Chars(literal), [Use(key)], Named(key), Cutting(s[n..]));
      case Unclosed =>
    }
  }

  lemma ConsItems(a: seq<Item>, b: seq<Item>, c: seq<Item>, p: Stretch, rest: seq<Stretch>)
    requires ItemsOfStretches([p] + rest) == c + ItemsOfStretches(([p] + rest)[1..])
    ensures a + (b + c) + ItemsOfStretches(rest) == a + b + ItemsOfStretches([p] + rest)
    ensures a + b + c + [] + ItemsOfStretches(rest) == a + b + ItemsOfStretches([p] + rest)
  {
    assert ([p] + rest)[1..] == rest;
  }

  // `s` is cut into the pieces, with `after` behind them.
  predicate IsCutInto(s: string, pieces: seq<Stretch>, after: string) {
    s == SpelledAll(pieces) + after && AreStretches(pieces, after)
  }

  // A brace that opens a placeholder and is never closed.
  predicate IsUnclosed(tail: string) {
    tail != [] && tail[0] == '{' && '}' !in tail[1..] && (|tail| > 1 ==> tail[1] != '{')
  }

  ghost predicate ScansTo(s: string, segments: seq<Segment>) {
    Separated(segments)
    && exists pieces :: IsCutInto(s, pieces, []) && ItemsOfSegments(segments) == ItemsOfStretches(pieces)
  }

  ghost predicate IsCutShort(s: string) {
    exists pieces, tail :: IsCutInto(s, pieces, tail) && IsUnclosed(tail)
  }

  // Every string either scans to its text and placeholders, escapes copied and doubled
  // braces halved, or holds a placeholder that is never closed.
  lemma ScanExactly(s: string)
    ensures Scan(s, [], []).Ok? ==> ScansTo(s, Scan(s, [], []).value)
    ensures Scan(s, [], []).Err? ==> IsCutShort(s)
  {
    CuttingIsFaithful(s);
    ScanKeepsItems(s, [], []);
    ScanIsNormalized(s, [], []);
    assert IsCutInto(s, Cutting(s), Uncut(s));
    assert [] + Chars([]) + ItemsOfStretches(Cutting(s)) == ItemsOfStretches(Cutting(s));
  }

  // ---- arguments ----

  // A key that is followed by punctuation other than `=`, or by nothing; `text` is what
  // the error quotes.
  predicate IsMalformedAt(input: Tokens, n: nat, text: string) {
    && n <= |input| && (forall i :: 0 <= i < n ==> !input[i].Punct?)
    && if n == |input| then text == LformatArgs.TextOfAll(input) && text != []
       else input[n].Punct? && input[n].c != '=' && text == LformatArgs.TextOfAll(input[..n]) + [input[n].c]
  }

  ghost predicate IsMalformed(input: Tokens, text: string) {
    exists n :: IsMalformedAt(input, n, text)
  }

  lemma {:induction false} MalformedKey(input: Tokens, key: string) returns (n: nat)
    requires ParseKey(input, key).Malformed?
    ensures n <= |input| && (forall i :: 0 <= i < n ==> !input[i].Punct?)
    ensures n == |input| ==>
      ParseKey(input, key).text == key + LformatArgs.TextOfAll(input) && ParseKey(input, key).text != []
    ensures n < |input| ==>
      input[n].Punct? && input[n].c != '=' && ParseKey(input, key).text == key + LformatArgs.TextOfAll(input[..n]) + [input[n].c]
    decreases |input|
  {
    if input == [] {
      n := 0;
      assert key + [] == key;
    } else if input[0].Punct? {
      n := 0;
      assert key + [] == key;
    } else {
      var text := LformatArgs.TextOf(input[0]);
      var m := MalformedKey(input[1..], key + text);
      n := m + 1;
      if m < |input[1..]| {
        assert input[..n] == [input[0]] + input[1..][..m];
        assert input[..n][1..] == input[1..][..m];
        KeyAssoc(key, text, LformatArgs.TextOfAll(input[1..][..m]));
      } else {
        KeyAssoc(key, text, LformatArgs.TextOfAll(input[1..]));
      }
    }
  }

  lemma KeyAssoc(x: string, y: string, z: string)
    ensures (x + y) + z == x + (y + z)
  {
  }

  // Whole arguments with distinct keys, as they stand at the front of the input.
  predicate AreArguments(cuts: seq<Cut>, rest: Tokens, input: Tokens) {
    GlueAll(cuts) + rest == input && CutsOk(cuts)
  }

  // After these pairs, whole arguments whose keys are all new, and then the fault.
  ghost predicate FaultIn(kvs: seq<Pair>, input: Tokens, e: ArgError, cuts: seq<Cut>, rest: Tokens) {
    && AreArguments(cuts, rest, input)
    && match e
       case ExpectedComma => false
       case MalformedArgument(text) => KeysDistinct(kvs + PairsIn(cuts)) && IsMalformed(rest, text)
       case DuplicateKey(key) =>
         && KeysDistinct(kvs + PairsIn(cuts)) && HasKey(kvs + PairsIn(cuts), key)
         && exists c: Cut, more: Tokens :: CutOk(c) && Glue(c) + more == rest && LformatArgs.TextOfAll(c.key) == key
  }

  lemma {:induction false} FaultIsNamed(kvs: seq<Pair>, input: Tokens) returns (cuts: seq<Cut>, rest: Tokens)
    requires KeysDistinct(kvs) && Pairs(input, kvs).Err?
    ensures FaultIn(kvs, input, Pairs(input, kvs).error, cuts, rest)
    decreases |input|
  {
    match ParseKey(input, [])
    case Malformed(text) =>
      cuts, rest := [], input;
      var n := MalformedKey(input, []);
      assert IsMalformedAt(input, n, text) by {
        assert [] + LformatArgs.TextOfAll(input[..n]) == LformatArgs.TextOfAll(input[..n]);
        assert n == |input| ==> input[..n] == input;
      }
      Alone(input, kvs);
    case Key(key, after) =>
      var value, left := ParseValue(after).0, ParseValue(after).1;
      CutIsFaithful(input);
      if HasKey(kvs, key) {
        cuts, rest := [], input;
        Alone(input, kvs);
        assert CutOk(FirstCut(input)) && Glue(FirstCut(input)) + left == input;
      } else {
        var pair := Pair(key, value);
        SnocDistinct(kvs, pair);
        var more, end := FaultIsNamed(kvs + [pair], left);
        cuts, rest := [FirstCut(input)] + more, end;
        ConsCut(FirstCut(input), more, end, kvs);
      }
  }

  lemma SnocDistinct(kvs: seq<Pair>, pair: Pair)
    requires KeysDistinct(kvs) && !HasKey(kvs, pair.key)
    ensures KeysDistinct(kvs + [pair])
  {
  }

  ghost predicate HasFault(input: Tokens, e: ArgError) {
    exists cuts, rest :: FaultIn([], input, e, cuts, rest)
  }

  // Every rejected argument list: no comma after the format string, or whole arguments
  // with distinct keys followed by what the error names, a malformed key or a repeated
  // one.
  lemma RejectionIsNamed(input: Tokens)
    ensures BuildKvs(input) == Err(ExpectedComma) <==> input != [] && !(input[0].Punct? && input[0].c == ',')
    ensures BuildKvs(input).Err? && BuildKvs(input).error != ExpectedComma ==>
      input != [] && HasFault(input[1..], BuildKvs(input).error)
  {
    if input != [] && IsPunct(input[0], ',') {
      if Pairs(input[1..], []).Err? {
        var cuts, rest := FaultIsNamed([], input[1..]);
      }
    }
  }
}
