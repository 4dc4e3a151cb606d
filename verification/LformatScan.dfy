// The format-string scanner of the logging macros, and the escaping printer it undoes.
// Text stays in the literal's source form, escape sequences spelled out.

module LformatScan {
  import opened Basics

  datatype Segment = Literal(text: string) | Placeholder(key: string)

  datatype ScanError = ExpectedClosingBrace

  type Scanned = Result<seq<Segment>, ScanError>

  function Flush(done: seq<Segment>, literal: string): seq<Segment> {
    if literal == [] then done else done + [Literal(literal)]
  }

  // The offset just past the first closing brace, or the end if there is none.
  function PastBrace(s: string): (n: nat)
    ensures n <= |s|
    ensures s != [] ==> n > 0
  {
    if s == [] then 0 else if s[0] == '}' then 1 else 1 + PastBrace(s[1..])
  }

  predicate Closes(s: string) {
    '}' in s
  }

  // Characters the scanner copies in one go when it stands on a backslash.
  function EscapeLength(s: string): (n: nat)
    requires s != [] && s[0] == '\\'
    ensures 0 < n <= |s|
  {
    if |s| == 1 then 1
    else if s[1] == 'u' && |s| > 2 && s[2] == '{' then 2 + PastBrace(s[2..])
    else 2
  }

  // What the scanner does with the characters in front of it.
  datatype Step =
    | Copy(n: nat)        // an escape sequence or an ordinary character, verbatim
    | Brace(c: char)      // a doubled brace, halved
    | Name(n: nat)        // a placeholder, braces included
    | Unclosed

  function StepAt(s: string): (step: Step)
    requires s != []
    ensures step.Copy? || step.Name? ==> 0 < step.n <= |s|
    ensures step.Brace? ==> |s| >= 2
    ensures step.Name? ==> step.n >= 2
  {
    if s[0] == '\\' then Copy(EscapeLength(s))
    else if |s| > 1 && s[0] == '{' && s[1] == '{' then Brace('{')
    else if |s| > 1 && s[0] == '}' && s[1] == '}' then Brace('}')
    else if s[0] == '{' then if Closes(s[1..]) then Name(1 + PastBrace(s[1..])) else Unclosed
    else Copy(1)
  }

  // What scanning the rest of the string yields, after `done` and a pending literal.
  function Scan(s: string, literal: string, done: seq<Segment>): Scanned
    decreases |s|
  {
    if s == [] then Ok(Flush(done, literal))
    else match StepAt(s)
      case Copy(n) => Scan(s[n..], literal + s[..n], done)
      case Brace(c) => Scan(s[2..], literal + [c], done)
      case Name(n) => Scan(s[n..], [], Flush(done, literal) + [Placeholder(s[1..n - 1])])
      case Unclosed => Err(ExpectedClosingBrace)
  }

  lemma Assoc(x: string, y: string, z: string)
    ensures (x + y) + z == x + (y + z)
  {
  }

  lemma {:induction false} BraceFound(s: string)
    requires Closes(s)
    ensures PastBrace(s) > 0 && s[PastBrace(s) - 1] == '}' && '}' !in s[..PastBrace(s) - 1]
    decreases |s|
  {
    if s[0] != '}' {
      BraceFound(s[1..]);
      var n := PastBrace(s[1..]);
      assert s[..n] == [s[0]] + s[1..][..n - 1];
    }
  }

  lemma {:induction false} BraceMissing(s: string)
    requires !Closes(s)
    ensures PastBrace(s) == |s|
    decreases |s|
  {
    if s != [] {
      BraceMissing(s[1..]);
    }
  }

  lemma {:induction false} BraceAfter(body: string, rest: string)
    requires '}' !in body
    ensures PastBrace(body + ['}'] + rest) == |body| + 1
  {
    var s := body + ['}'] + rest;
    if body != [] {
      BraceAfter(body[1..], rest);
      assert s[1..] == body[1..] + ['}'] + rest;
    }
  }

  // ---- the loops ----

  // Advances over an escape's braces, copying them.
  method CopyThroughBrace(chars: string, from: nat) returns (to: nat)
    requires from <= |chars|
    ensures to == from + PastBrace(chars[from..])
  {
    to := from;
    while to < |chars| && chars[to] != '}'
      invariant from <= to <= |chars|
      invariant from + PastBrace(chars[from..]) == to + PastBrace(chars[to..])
    {
      assert chars[to..][0] == chars[to] && chars[to..][1..] == chars[to + 1..];
      to := to + 1;
    }
    if to < |chars| {
      assert chars[to..][0] == '}';
      to := to + 1;
    }
  }

  method ScanKey(chars: string, from: nat) returns (to: nat, key: string, closed: bool)
    requires from <= |chars|
    ensures closed == Closes(chars[from..])
    ensures closed ==> to == from + PastBrace(chars[from..]) && from < to && key == chars[from..to - 1]
  {
    to, key, closed := from, [], false;
    while to < |chars|
      invariant from <= to <= |chars|
      invariant key == chars[from..to] && !closed && '}' !in key
      invariant from + PastBrace(chars[from..]) == to + PastBrace(chars[to..])
    {
      assert chars[to..][0] == chars[to] && chars[to..][1..] == chars[to + 1..];
      var c := chars[to];
      to := to + 1;
      if c == '}' {
        closed := true;
        assert chars[from..][to - 1 - from] == '}';
        return;
      }
      key := key + [c];
    }
    assert chars[from..] == key;
  }

  // Finds out what to do at `i`, and where to go on from.
  method Look(chars: string, i: nat) returns (step: Step, to: nat)
    requires i < |chars|
    ensures step == StepAt(chars[i..])
    ensures to == match step case Copy(n) => i + n case Brace(_) => i + 2 case Name(n) => i + n case Unclosed => i
    ensures step != Unclosed ==> i < to <= |chars|
  {
    ghost var s := chars[i..];
    assert s[0] == chars[i] && (i + 1 < |chars| ==> s[1] == chars[i + 1]);
    assert s[1..] == chars[i + 1..];
    if chars[i] == '\\' {
      to := if i + 1 == |chars| then i + 1 else i + 2;
      if i + 2 < |chars| && chars[i + 1] == 'u' && chars[i + 2] == '{' {
        assert s[2] == chars[i + 2] && s[2..] == chars[i + 2..];
        to := CopyThroughBrace(chars, i + 2);
      }
      return Copy(to - i), to;
    }
    if i + 1 < |chars| && (chars[i] == '{' || chars[i] == '}') && chars[i + 1] == chars[i] {
      return Brace(chars[i]), i + 2;
    }
    if chars[i] == '{' {
      var end, key, closed := ScanKey(chars, i + 1);
      return if closed then Name(end - i) else Unclosed, if closed then end else i;
    }
    return Copy(1), i + 1;
  }

  method ScanFormatString(chars: string) returns (r: Scanned)
    ensures r == Scan(chars, [], [])
  {
    var segments: seq<Segment>, literal: string, i := [], [], 0;
    assert chars[0..] == chars;
    while i < |chars|
      invariant i <= |chars|
      invariant Scan(chars, [], []) == Scan(chars[i..], literal, segments)
    {
      var step, to := Look(chars, i);
      DropTwice(chars, i, to);
      match step {
        case Copy(_) =>
          literal := literal + chars[i..to];
        case Brace(c) =>
          literal := literal + [c];
        case Name(_) =>
          segments := Flush(segments, literal) + [Placeholder(chars[i + 1..to - 1])];
          literal := [];
        case Unclosed =>
          return Err(ExpectedClosingBrace);
      }
      i := to;
    }
    assert chars[i..] == [];
    return Ok(Flush(segments, literal));
  }

  lemma DropTwice(chars: string, i: nat, to: nat)
    requires i <= to <= |chars|
    ensures chars[i..][to - i..] == chars[to..] && chars[i..][..to - i] == chars[i..to]
    ensures i + 2 <= to ==> chars[i..][1..to - i - 1] == chars[i + 1..to - 1]
  {
  }

  // ---- the printer ----

  // A literal's text, one source character or escape sequence at a time.
  datatype Atom = Plain(c: char) | Escape(c: char) | Unicode(body: string)

  predicate AtomOk(a: Atom) {
    match a
    case Plain(c) => c != '\\'
    case Escape(c) => c != 'u'
    case Unicode(body) => '}' !in body
  }

  function TextOf(a: Atom): string {
    match a
    case Plain(c) => [c]
    case Escape(c) => ['\\', c]
    case Unicode(body) => ['\\', 'u', '{'] + body + ['}']
  }

  function Show(a: Atom): string {
    if a == Plain('{') then ['{', '{'] else if a == Plain('}') then ['}', '}'] else TextOf(a)
  }

  function TextOfAll(atoms: seq<Atom>): string {
    if atoms == [] then [] else TextOf(atoms[0]) + TextOfAll(atoms[1..])
  }

  function ShowAll(atoms: seq<Atom>): string {
    if atoms == [] then [] else Show(atoms[0]) + ShowAll(atoms[1..])
  }

  datatype Part = Words(atoms: seq<Atom>) | Key(key: string)

  predicate PartOk(p: Part) {
    match p
    case Words(atoms) => atoms != [] && forall i | 0 <= i < |atoms| :: AtomOk(atoms[i])
    case Key(key) => '}' !in key && (key != [] ==> key[0] != '{')
  }

  // No empty literal, no two literals in a row, every key expressible.
  predicate Normalized(parts: seq<Part>) {
    && (forall i | 0 <= i < |parts| :: PartOk(parts[i]))
    && (forall i | 0 < i < |parts| :: !(parts[i - 1].Words? && parts[i].Words?))
  }

  function SegmentOf(p: Part): Segment {
    match p
    case Words(atoms) => Literal(TextOfAll(atoms))
    case Key(key) => Placeholder(key)
  }

  function SegmentsOf(parts: seq<Part>): (r: seq<Segment>)
    ensures |r| == |parts|
    ensures forall i | 0 <= i < |parts| :: r[i] == SegmentOf(parts[i])
  {
    if parts == [] then [] else [SegmentOf(parts[0])] + SegmentsOf(parts[1..])
  }

  function ShowPart(p: Part): string {
    match p
    case Words(atoms) => ShowAll(atoms)
    case Key(key) => ['{'] + key + ['}']
  }

  function ShowParts(parts: seq<Part>): string {
    if parts == [] then [] else ShowPart(parts[0]) + ShowParts(parts[1..])
  }

  lemma ScanAtom(a: Atom, rest: string, literal: string, done: seq<Segment>)
    requires AtomOk(a)
    ensures Scan(Show(a) + rest, literal, done) == Scan(rest, literal + TextOf(a), done)
  {
    var s := Show(a) + rest;
    match a
    case Plain(c) =>
      if c == '{' || c == '}' {
        assert s[2..] == rest;
      } else {
        assert s[1..] == rest;
      }
    case Escape(c) =>
      assert s[2..] == rest && s[..2] == TextOf(a);
    case Unicode(body) =>
      assert s[2..] == (['{'] + body) + ['}'] + rest;
      BraceAfter(['{'] + body, rest);
      assert s[EscapeLength(s)..] == rest && s[..EscapeLength(s)] == TextOf(a);
  }

  lemma {:induction false} ScanAtoms(atoms: seq<Atom>, rest: string, literal: string, done: seq<Segment>)
    requires forall i | 0 <= i < |atoms| :: AtomOk(atoms[i])
    ensures Scan(ShowAll(atoms) + rest, literal, done) == Scan(rest, literal + TextOfAll(atoms), done)
    decreases |atoms|
  {
    if atoms == [] {
      Unit(rest, literal);
    } else {
      Assoc(Show(atoms[0]), ShowAll(atoms[1..]), rest);
      ScanAtom(atoms[0], ShowAll(atoms[1..]) + rest, literal, done);
      ScanAtoms(atoms[1..], rest, literal + TextOf(atoms[0]), done);
      Assoc(literal, TextOf(atoms[0]), TextOfAll(atoms[1..]));
    }
  }

  lemma Unit(x: string, y: string)
    ensures [] + x == x && y + [] == y
  {
  }

  // A printed key is found whole, and nothing after it.
  lemma KeySpan(key: string, rest: string)
    requires '}' !in key
    ensures var s := ['{'] + key + ['}'] + rest;
      && s[1..] == key + ['}'] + rest && PastBrace(s[1..]) == |key| + 1 && Closes(s[1..])
      && s[1..1 + |key|] == key && s[2 + |key|..] == rest && s[1] == (if key == [] then '}' else key[0])
  {
    var s := ['{'] + key + ['}'] + rest;
    BraceAfter(key, rest);
    assert s[1..] == key + ['}'] + rest;
    assert s[1..][|key|] == '}';
  }

  lemma StepAtKey(key: string, rest: string)
    requires PartOk(Key(key))
    ensures StepAt(ShowPart(Key(key)) + rest) == Name(|key| + 2)
  {
    KeySpan(key, rest);
  }

  lemma ScanName(s: string, n: nat, literal: string, done: seq<Segment>)
    requires s != [] && StepAt(s) == Name(n)
    ensures Scan(s, literal, done) == Scan(s[n..], [], Flush(done, literal) + [Placeholder(s[1..n - 1])])
  {
  }

  lemma ScanPlaceholder(key: string, rest: string, literal: string, done: seq<Segment>)
    requires PartOk(Key(key))
    ensures Scan(ShowPart(Key(key)) + rest, literal, done) == Scan(rest, [], Flush(done, literal) + [Placeholder(key)])
  {
    StepAtKey(key, rest);
    ScanName(ShowPart(Key(key)) + rest, |key| + 2, literal, done);
    KeySpan(key, rest);
  }

  lemma {:induction false} ScanParts(parts: seq<Part>, literal: string, done: seq<Segment>)
    requires Normalized(parts)
    requires parts != [] && parts[0].Words? ==> literal == []
    ensures Scan(ShowParts(parts), literal, done) == Ok(Flush(done, literal) + SegmentsOf(parts))
    decreases |parts|
  {
    if parts == [] {
      assert Flush(done, literal) + [] == Flush(done, literal);
    } else {
      var rest, after := ShowParts(parts[1..]), SegmentsOf(parts[1..]);
      assert Normalized(parts[1..]);
      match parts[0]
      case Words(atoms) =>
        ScanAtoms(atoms, rest, [], done);
        TextNotEmpty(atoms);
        Unit(TextOfAll(atoms), []);
        ScanParts(parts[1..], TextOfAll(atoms), done);
        ConsSegment(done, SegmentOf(parts[0]), after);
      case Key(key) =>
        ScanPlaceholder(key, rest, literal, done);
        ScanParts(parts[1..], [], Flush(done, literal) + [Placeholder(key)]);
        ConsSegment(Flush(done, literal), SegmentOf(parts[0]), after);
    }
  }

  lemma ConsSegment(done: seq<Segment>, s: Segment, after: seq<Segment>)
    ensures done + [s] + after == done + ([s] + after)
  {
  }

  lemma TextNotEmpty(atoms: seq<Atom>)
    requires atoms != []
    ensures TextOfAll(atoms) != []
  {
  }

  // Scanning undoes the printer on every normalized list, whatever its literals begin
  // or end with.
  lemma ScanUndoesShow(parts: seq<Part>)
    requires Normalized(parts)
    ensures Scan(ShowParts(parts), [], []) == Ok(SegmentsOf(parts))
  {
    ScanParts(parts, [], []);
    assert [] + SegmentsOf(parts) == SegmentsOf(parts);
  }

  // ---- the other direction: what a scan can yield ----

  predicate SegmentOk(s: Segment) {
    match s
    case Literal(text) => text != []
    case Placeholder(key) => '}' !in key && (key != [] ==> key[0] != '{')
  }

  predicate Separated(segments: seq<Segment>) {
    && (forall i | 0 <= i < |segments| :: SegmentOk(segments[i]))
    && (forall i | 0 < i < |segments| :: !(segments[i - 1].Literal? && segments[i].Literal?))
  }

  predicate EndsInKey(segments: seq<Segment>) {
    segments == [] || segments[|segments| - 1].Placeholder?
  }

  // Whatever the input, an accepted scan is a normalized list: no empty or adjacent
  // literals, and only keys the printer can express.
  lemma {:induction false} ScanIsNormalized(s: string, literal: string, done: seq<Segment>)
    requires Separated(done) && EndsInKey(done)
    ensures Scan(s, literal, done).Ok? ==> Separated(Scan(s, literal, done).value)
    decreases |s|
  {
    if s != [] {
      match StepAt(s)
      case Copy(n) => ScanIsNormalized(s[n..], literal + s[..n], done);
      case Brace(c) => ScanIsNormalized(s[2..], literal + [c], done);
      case Name(n) =>
        NameIsKey(s);
        ScanIsNormalized(s[n..], [], Flush(done, literal) + [Placeholder(s[1..n - 1])]);
      case Unclosed =>
    }
  }

  lemma NameIsKey(s: string)
    requires s != [] && StepAt(s).Name?
    ensures SegmentOk(Placeholder(s[1..StepAt(s).n - 1]))
  {
    BraceFound(s[1..]);
    assert s[1..StepAt(s).n - 1] == s[1..][..PastBrace(s[1..]) - 1];
  }
}
