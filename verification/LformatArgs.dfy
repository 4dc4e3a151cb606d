// The `key = value` arguments after a format string, as tokens: the scanner that splits
// them, and the argument lists it recovers exactly.

module LformatArgs {
  import opened Basics

  datatype Token =
    | Punct(c: char, joint: bool)
    | Ident(text: string)
    | Literal(text: string)
    | Group(text: string)

  type Tokens = seq<Token>

  function TextOf(t: Token): string {
    match t
    case Punct(c, _) => [c]
    case Ident(text) => text
    case Literal(text) => text
    case Group(text) => text
  }

  // ---- the key half ----

  datatype KeyResult = Key(key: string, rest: Tokens) | End | Malformed(text: string)

  function ParseKey(input: Tokens, key: string): (r: KeyResult)
    ensures r.Key? ==> |r.rest| < |input|
  {
    if input == [] then (if key == [] then End else Malformed(key))
    else match input[0]
      case Punct(c, _) => if c == '=' then Key(key, input[1..]) else Malformed(key + [c])
      case _ => ParseKey(input[1..], key + TextOf(input[0]))
  }

  method ScanKey(input: Tokens) returns (r: KeyResult)
    ensures r == ParseKey(input, [])
  {
    var key, left := [], input;
    while left != []
      invariant ParseKey(input, []) == ParseKey(left, key)
      decreases |left|
    {
      var token := left[0];
      left := left[1..];
      match token
      case Punct(c, _) =>
        return if c == '=' then Key(key, left) else Malformed(key + [c]);
      case Ident(text) => key := key + text;
      case Literal(text) => key := key + text;
      case Group(text) => key := key + text;
    }
    return if key == [] then End else Malformed(key);
  }

  // ---- the value half ----

  // What the scanner remembers: depth of open generic arguments, consecutive colons,
  // the previous token if it was punctuation, and whether the value is still empty.
  datatype Angles = Angles(depth: nat, colons: nat, prev: Option<Token>, empty: bool)

  const START := Angles(0, 0, None, true)

  predicate IsPunct(t: Token, c: char) {
    t.Punct? && t.c == c
  }

  predicate Stops(a: Angles, t: Token) {
    IsPunct(t, ',') && a.depth == 0
  }

  predicate Opens(a: Angles, t: Token) {
    IsPunct(t, '<') && (a.depth > 0 || a.colons >= 2 || a.empty)
  }

  // The `>` of `->` and `=>` closes nothing.
  predicate IsArrow(prev: Option<Token>) {
    prev.Some? && prev.value.Punct? && (prev.value.c == '-' || prev.value.c == '=') && prev.value.joint
  }

  predicate Shuts(a: Angles, t: Token) {
    IsPunct(t, '>') && a.depth > 0 && !IsArrow(a.prev)
  }

  function Next(a: Angles, t: Token): Angles {
    var depth := if Opens(a, t) then a.depth + 1 else if Shuts(a, t) then a.depth - 1 else a.depth;
    if t.Punct? then Angles(depth, if t.c == ':' then a.colons + 1 else 0, Some(t), false)
    else Angles(depth, 0, None, false)
  }

  // How many tokens belong to the value.
  function ValueLength(input: Tokens, a: Angles): (n: nat)
    ensures n <= |input|
  {
    if input == [] || Stops(a, input[0]) then 0 else 1 + ValueLength(input[1..], Next(a, input[0]))
  }

  // The value, and what is left once its comma is gone.
  function ParseValue(input: Tokens): (r: (Tokens, Tokens))
    ensures |r.1| <= |input|
  {
    var n := ValueLength(input, START);
    (input[..n], if n < |input| then input[n + 1..] else [])
  }

  method ScanValue(input: Tokens) returns (value: Tokens, rest: Tokens)
    ensures (value, rest) == ParseValue(input)
  {
    value := [];
    var left, depth, colons, prev: Option<Token> := input, 0, 0, None;
    while left != []
      invariant |value| <= |input| && left == input[|value|..] && value == input[..|value|]
      invariant ValueLength(input, START) == |value| + ValueLength(left, Angles(depth, colons, prev, value == []))
      decreases |left|
    {
      var token := left[0];
      left := left[1..];
      if token.Punct? {
        if token.c == ',' && depth == 0 {
          return value, left;
        }
        if token.c == '<' && (depth > 0 || colons >= 2 || value == []) {
          depth := depth + 1;
        } else if token.c == '>' && depth > 0 && !IsArrow(prev) {
          depth := depth - 1;
        }
        colons := if token.c == ':' then colons + 1 else 0;
        prev := Some(token);
      } else {
        colons := 0;
        prev := None;
      }
      value := value + [token];
    }
    rest := [];
  }

  // ---- the list ----

  datatype Pair = Pair(key: string, value: Tokens)

  datatype ArgError = ExpectedComma | MalformedArgument(text: string) | DuplicateKey(key: string)

  type Parsed = Result<seq<Pair>, ArgError>

  predicate HasKey(kvs: seq<Pair>, key: string) {
    exists i :: 0 <= i < |kvs| && kvs[i].key == key
  }

  function Pairs(input: Tokens, kvs: seq<Pair>): Parsed
    decreases |input|
  {
    match ParseKey(input, [])
    case End => Ok(kvs)
    case Malformed(text) => Err(MalformedArgument(text))
    case Key(key, rest) =>
      var (value, left) := ParseValue(rest);
      if HasKey(kvs, key) then Err(DuplicateKey(key)) else Pairs(left, kvs + [Pair(key, value)])
  }

  function BuildKvs(input: Tokens): Parsed {
    if input == [] then Ok([])
    else if !IsPunct(input[0], ',') then Err(ExpectedComma)
    else Pairs(input[1..], [])
  }

  method HasKeyIn(kvs: seq<Pair>, key: string) returns (found: bool)
    ensures found == HasKey(kvs, key)
  {
    found := false;
    for i := 0 to |kvs|
      invariant found == exists j :: 0 <= j < i && kvs[j].key == key
    {
      found := found || kvs[i].key == key;
    }
  }

  method ScanArguments(input: Tokens) returns (r: Parsed)
    ensures r == BuildKvs(input)
  {
    if input == [] {
      return Ok([]);
    }
    if !IsPunct(input[0], ',') {
      return Err(ExpectedComma);
    }
    var kvs, left := [], input[1..];
    while true
      invariant BuildKvs(input) == Pairs(left, kvs)
      decreases |left|
    {
      var key := ScanKey(left);
      match key
      case End => return Ok(kvs);
      case Malformed(text) => return Err(MalformedArgument(text));
      case Key(name, rest) =>
        var value, after := ScanValue(rest);
        var found := HasKeyIn(kvs, name);
        if found {
          return Err(DuplicateKey(name));
        }
        kvs := kvs + [Pair(name, value)];
        left := after;
    }
  }

  // ---- the value grammar ----

  // Inside angle brackets: any token but a bracket, an arrow, or a nested list.
  datatype Inner = Tok(t: Token) | Arrow(shaft: char, joint: bool) | Nest(angle: Angle)

  // `<` items `>`; the flags are the spacing of the brackets.
  datatype Angle = Angle(open: bool, items: seq<Inner>, close: bool)

  // Outside: a plain token, or a turbofish.
  datatype Piece = Plain(t: Token) | Turbo(first: bool, second: bool, args: Angle)

  datatype Expr = Expr(lead: Option<Angle>, pieces: seq<Piece>)

  function ShowAngle(a: Angle): Tokens {
    [Punct('<', a.open)] + ShowItems(a.items) + [Punct('>', a.close)]
  }

  function ShowItem(i: Inner): Tokens {
    match i
    case Tok(t) => [t]
    case Arrow(shaft, joint) => [Punct(shaft, true), Punct('>', joint)]
    case Nest(angle) => ShowAngle(angle)
  }

  function ShowItems(items: seq<Inner>): Tokens {
    if items == [] then [] else ShowItem(items[0]) + ShowItems(items[1..])
  }

  function ShowPiece(p: Piece): Tokens {
    match p
    case Plain(t) => [t]
    case Turbo(first, second, args) => [Punct(':', first), Punct(':', second)] + ShowAngle(args)
  }

  function ShowPieces(pieces: seq<Piece>): Tokens {
    if pieces == [] then [] else ShowPiece(pieces[0]) + ShowPieces(pieces[1..])
  }

  function ShowExpr(e: Expr): Tokens {
    (if e.lead.Some? then ShowAngle(e.lead.value) else []) + ShowPieces(e.pieces)
  }

  // A bracket that follows `-` or `=` without a space would read as an arrow.
  predicate EndsOpenly(ts: Tokens) {
    ts != [] && (ts[|ts| - 1] == Punct('-', true) || ts[|ts| - 1] == Punct('=', true))
  }

  predicate AngleOk(a: Angle) {
    ItemsOk(a.items) && !EndsOpenly(ShowItems(a.items))
  }

  predicate ItemOk(i: Inner) {
    match i
    case Tok(t) => !IsPunct(t, '<') && !IsPunct(t, '>')
    case Arrow(shaft, _) => shaft == '-' || shaft == '='
    case Nest(angle) => AngleOk(angle)
  }

  predicate ItemsOk(items: seq<Inner>) {
    items == [] || (ItemOk(items[0]) && ItemsOk(items[1..]))
  }

  // Colons at the end of the tokens.
  function ColonRun(ts: Tokens): nat {
    if ts != [] && IsPunct(ts[|ts| - 1], ':') then 1 + ColonRun(ts[..|ts| - 1]) else 0
  }

  // After `before`: no comma outside brackets, and no plain `<` that would open any.
  predicate PieceOk(before: Tokens, p: Piece) {
    match p
    case Plain(t) => !IsPunct(t, ',') && (IsPunct(t, '<') ==> before != [] && ColonRun(before) < 2)
    case Turbo(_, _, args) => AngleOk(args)
  }

  predicate PiecesOk(before: Tokens, pieces: seq<Piece>)
    decreases |pieces|
  {
    pieces == [] || (PieceOk(before, pieces[0]) && PiecesOk(before + ShowPiece(pieces[0]), pieces[1..]))
  }

  predicate ExprOk(e: Expr) {
    (e.lead.Some? ==> AngleOk(e.lead.value))
    && PiecesOk(if e.lead.Some? then ShowAngle(e.lead.value) else [], e.pieces)
  }

  // ---- running the scanner over whole pieces ----

  function Run(a: Angles, ts: Tokens): Angles {
    if ts == [] then a else Next(Run(a, ts[..|ts| - 1]), ts[|ts| - 1])
  }

  // None of the tokens ends the value.
  predicate Passes(a: Angles, ts: Tokens) {
    ts == [] || (Passes(a, ts[..|ts| - 1]) && !Stops(Run(a, ts[..|ts| - 1]), ts[|ts| - 1]))
  }

  lemma {:induction false} RunBoth(a: Angles, x: Tokens, y: Tokens)
    ensures Run(a, x + y) == Run(Run(a, x), y)
    ensures Passes(a, x) && Passes(Run(a, x), y) ==> Passes(a, x + y)
    decreases |y|
  {
    if y == [] {
      assert x + y == x;
    } else {
      var n := |y| - 1;
      RunBoth(a, x, y[..n]);
      assert (x + y)[..|x| + n] == x + y[..n];
    }
  }

  lemma {:induction false} RunFacts(ts: Tokens)
    ensures Run(START, ts).colons == ColonRun(ts) && Run(START, ts).empty == (ts == [])
  {
    if ts != [] {
      RunFacts(ts[..|ts| - 1]);
    }
  }

  lemma RunOne(a: Angles, t: Token)
    ensures Run(a, [t]) == Next(a, t) && (Passes(a, [t]) <==> !Stops(a, t))
  {
    assert [t][..0] == [];
  }

  lemma RunPrev(a: Angles, ts: Tokens)
    ensures ts != [] ==> Run(a, ts).prev == if ts[|ts| - 1].Punct? then Some(ts[|ts| - 1]) else None
  {
  }

  lemma {:induction false} LengthOfPassing(a: Angles, ts: Tokens, rest: Tokens)
    requires Passes(a, ts)
    ensures ValueLength(ts + rest, a) == |ts| + ValueLength(rest, Run(a, ts))
    decreases |ts|
  {
    if ts == [] {
      assert ts + rest == rest;
    } else {
      var n := |ts| - 1;
      var tail := [ts[n]] + rest;
      LengthOfPassing(a, ts[..n], tail);
      assert ts[..n] + tail == ts + rest;
      assert tail[1..] == rest;
    }
  }

  // Inside brackets nothing ends the value, and the depth comes out as it went in.
  lemma {:induction false} ItemsPass(a: Angles, items: seq<Inner>)
    requires a.depth > 0 && ItemsOk(items)
    ensures Passes(a, ShowItems(items)) && Run(a, ShowItems(items)).depth == a.depth
    decreases items
  {
    if items != [] {
      ItemPasses(a, items[0]);
      var b := Run(a, ShowItem(items[0]));
      ItemsPass(b, items[1..]);
      RunBoth(a, ShowItem(items[0]), ShowItems(items[1..]));
    }
  }

  lemma {:induction false} ItemPasses(a: Angles, i: Inner)
    requires a.depth > 0 && ItemOk(i)
    ensures Passes(a, ShowItem(i)) && Run(a, ShowItem(i)).depth == a.depth
    decreases i
  {
    match i
    case Tok(t) => RunOne(a, t);
    case Arrow(shaft, joint) =>
      var b := Next(a, Punct(shaft, true));
      RunOne(a, Punct(shaft, true));
      RunOne(b, Punct('>', joint));
      RunBoth(a, [Punct(shaft, true)], [Punct('>', joint)]);
      assert ShowItem(i) == [Punct(shaft, true)] + [Punct('>', joint)];
    case Nest(angle) => AnglePasses(a, angle);
  }

  lemma {:induction false} AnglePasses(a: Angles, angle: Angle)
    requires Opens(a, Punct('<', angle.open)) && AngleOk(angle)
    ensures Passes(a, ShowAngle(angle)) && Run(a, ShowAngle(angle)).depth == a.depth
    decreases angle
  {
    var open, shut, inner := Punct('<', angle.open), Punct('>', angle.close), ShowItems(angle.items);
    var b := Next(a, open);
    RunOne(a, open);
    ItemsPass(b, angle.items);
    RunBoth(a, [open], inner);
    var c := Run(b, inner);
    RunPrev(b, inner);
    RunOne(c, shut);
    RunBoth(a, [open] + inner, [shut]);
  }

  lemma {:induction false} PiecesPass(before: Tokens, pieces: seq<Piece>)
    requires PiecesOk(before, pieces) && Passes(START, before) && Run(START, before).depth == 0
    ensures Passes(START, before + ShowPieces(pieces)) && Run(START, before + ShowPieces(pieces)).depth == 0
    decreases |pieces|
  {
    if pieces == [] {
      Sums(before, [], []);
    } else {
      PiecePasses(before, pieces[0]);
      var after := before + ShowPiece(pieces[0]);
      PiecesPass(after, pieces[1..]);
      Sums(before, ShowPiece(pieces[0]), ShowPieces(pieces[1..]));
    }
  }

  lemma Sums(x: Tokens, y: Tokens, z: Tokens)
    ensures (x + y) + z == x + (y + z) && x + [] == x
  {
  }

  lemma SplitBack(x: Tokens, y: Tokens)
    ensures (x + y)[..|x|] == x && (y != [] ==> (x + y)[|x| + 1..] == y[1..])
  {
  }

  lemma ExprPasses(e: Expr)
    requires ExprOk(e)
    ensures Passes(START, ShowExpr(e)) && Run(START, ShowExpr(e)).depth == 0
  {
    var lead := if e.lead.Some? then ShowAngle(e.lead.value) else [];
    if e.lead.Some? {
      AnglePasses(START, e.lead.value);
    }
    PiecesPass(lead, e.pieces);
  }

  lemma PiecePasses(before: Tokens, p: Piece)
    requires PieceOk(before, p) && Passes(START, before) && Run(START, before).depth == 0
    ensures Passes(START, before + ShowPiece(p)) && Run(START, before + ShowPiece(p)).depth == 0
  {
    var a := Run(START, before);
    RunFacts(before);
    RunBoth(START, before, ShowPiece(p));
    match p
    case Plain(t) => RunOne(a, t);
    case Turbo(first, second, args) =>
      var x, y := Punct(':', first), Punct(':', second);
      RunOne(a, x);
      RunOne(Next(a, x), y);
      RunBoth(a, [x], [y]);
      assert [x] + [y] == [x, y];
      AnglePasses(Run(a, [x, y]), args);
      RunBoth(a, [x, y], ShowAngle(args));
  }

  // A well-formed value is read back whole, up to the comma that ends it.
  lemma ParseUndoesShow(e: Expr, rest: Tokens)
    requires ExprOk(e) && (rest != [] ==> IsPunct(rest[0], ','))
    ensures ParseValue(ShowExpr(e) + rest) == (ShowExpr(e), if rest == [] then [] else rest[1..])
  {
    ExprPasses(e);
    LengthOfPassing(START, ShowExpr(e), rest);
    SplitBack(ShowExpr(e), rest);
  }

  // ---- whole argument lists ----

  // `, key = value`; the flags are the spacing of the comma and of the equals sign.
  datatype Arg = Arg(comma: bool, key: string, equals: bool, value: Expr)

  function ShowArg(a: Arg): Tokens {
    [Punct(',', a.comma), Ident(a.key), Punct('=', a.equals)] + ShowExpr(a.value)
  }

  function ShowArgs(args: seq<Arg>, trailing: Tokens): Tokens {
    if args == [] then trailing else ShowArg(args[0]) + ShowArgs(args[1..], trailing)
  }

  // What the printed arguments mean: the pairs in order, or the first repeated key.
  function Collect(args: seq<Arg>, kvs: seq<Pair>): Parsed {
    if args == [] then Ok(kvs)
    else if HasKey(kvs, args[0].key) then Err(DuplicateKey(args[0].key))
    else Collect(args[1..], kvs + [Pair(args[0].key, ShowExpr(args[0].value))])
  }

  predicate Trailing(ts: Tokens) {
    ts == [] || (|ts| == 1 && IsPunct(ts[0], ','))
  }

  predicate ArgsOk(args: seq<Arg>) {
    forall i | 0 <= i < |args| :: ExprOk(args[i].value)
  }

  lemma ArgsStartWithComma(args: seq<Arg>, trailing: Tokens)
    requires Trailing(trailing)
    ensures ShowArgs(args, trailing) != [] ==> IsPunct(ShowArgs(args, trailing)[0], ',')
  {
  }

  lemma KeyIsRead(key: string, equals: bool, rest: Tokens)
    ensures ParseKey([Ident(key), Punct('=', equals)] + rest, []) == KeyResult.Key(key, rest)
  {
    var input := [Ident(key), Punct('=', equals)] + rest;
    assert input[1..][0] == Punct('=', equals) && input[1..][1..] == rest;
    assert [] + key == key;
  }

  lemma {:induction false} PairsAreCollected(args: seq<Arg>, trailing: Tokens, kvs: seq<Pair>)
    requires ArgsOk(args) && Trailing(trailing)
    ensures var ts := ShowArgs(args, trailing);
      Pairs(if ts == [] then [] else ts[1..], kvs) == Collect(args, kvs)
    decreases |args|
  {
    var ts := ShowArgs(args, trailing);
    if args != [] {
      var a := args[0];
      var rest := ShowArgs(args[1..], trailing);
      ArgsStartWithComma(args[1..], trailing);
      ArgIsRead(a, rest, kvs);
      DropComma(a, rest);
      PairsAreCollected(args[1..], trailing, kvs + [Pair(a.key, ShowExpr(a.value))]);
    }
  }

  lemma DropComma(a: Arg, rest: Tokens)
    ensures (ShowArg(a) + rest)[1..] == [Ident(a.key), Punct('=', a.equals)] + (ShowExpr(a.value) + rest)
  {
  }

  lemma ArgIsRead(a: Arg, rest: Tokens, kvs: seq<Pair>)
    requires ExprOk(a.value) && (rest != [] ==> IsPunct(rest[0], ','))
    ensures Pairs([Ident(a.key), Punct('=', a.equals)] + (ShowExpr(a.value) + rest), kvs)
      == if HasKey(kvs, a.key) then Err(DuplicateKey(a.key))
         else Pairs(if rest == [] then [] else rest[1..], kvs + [Pair(a.key, ShowExpr(a.value))])
  {
    KeyIsRead(a.key, a.equals, ShowExpr(a.value) + rest);
    ParseUndoesShow(a.value, rest);
  }

  // Parsing undoes the printer: any list of arguments with values from the grammar,
  // with or without a trailing comma, comes back as it was, or names its first repeated
  // key.
  lemma BuildUndoesShow(args: seq<Arg>, trailing: Tokens)
    requires ArgsOk(args) && Trailing(trailing)
    ensures BuildKvs(ShowArgs(args, trailing)) == Collect(args, [])
  {
    PairsAreCollected(args, trailing, []);
    ArgsStartWithComma(args, trailing);
  }

  function PairsOf(args: seq<Arg>): (r: seq<Pair>)
    ensures |r| == |args|
  {
    if args == [] then [] else [Pair(args[0].key, ShowExpr(args[0].value))] + PairsOf(args[1..])
  }

  predicate DistinctKeys(args: seq<Arg>) {
    forall i, j | 0 <= i < j < |args| :: args[i].key != args[j].key
  }

  // None of the arguments' keys is among those already collected.
  predicate AreNew(args: seq<Arg>, kvs: seq<Pair>) {
    forall i | 0 <= i < |args| :: !HasKey(kvs, args[i].key)
  }

  // The first key is none of the others'.
  predicate FirstIsUnique(args: seq<Arg>)
    requires args != []
  {
    forall i | 0 < i < |args| :: args[i].key != args[0].key
  }

  lemma {:induction false} DistinctAreCollected(args: seq<Arg>, kvs: seq<Pair>)
    ensures Collect(args, kvs).Ok? <==> DistinctKeys(args) && AreNew(args, kvs)
    ensures Collect(args, kvs).Ok? ==> Collect(args, kvs).value == kvs + PairsOf(args)
    decreases |args|
  {
    if args == [] {
      assert kvs + [] == kvs;
    } else {
      var pair := Pair(args[0].key, ShowExpr(args[0].value));
      DistinctAreCollected(args[1..], kvs + [pair]);
      DistinctTail(args);
      NewTail(args, kvs, pair);
      Prepend(kvs, pair, PairsOf(args[1..]));
    }
  }

  lemma Prepend(kvs: seq<Pair>, pair: Pair, more: seq<Pair>)
    ensures kvs + [pair] + more == kvs + ([pair] + more)
  {
  }

  lemma NewTail(args: seq<Arg>, kvs: seq<Pair>, pair: Pair)
    requires args != [] && pair.key == args[0].key
    ensures AreNew(args, kvs) && FirstIsUnique(args) <==>
      !HasKey(kvs, args[0].key) && AreNew(args[1..], kvs + [pair])
  {
    forall i | 0 < i < |args|
      ensures args[1..][i - 1] == args[i]
      ensures HasKey(kvs + [pair], args[i].key) <==> HasKey(kvs, args[i].key) || args[i].key == pair.key
    {
      HasKeySnoc(kvs, pair, args[i].key);
    }
    if AreNew(args[1..], kvs + [pair]) && !HasKey(kvs, args[0].key) {
      forall i | 0 <= i < |args| ensures !HasKey(kvs, args[i].key) && (i > 0 ==> args[i].key != args[0].key) {
        assert i > 0 ==> !HasKey(kvs + [pair], args[1..][i - 1].key);
      }
    }
  }

  lemma HasKeySnoc(kvs: seq<Pair>, pair: Pair, k: string)
    ensures HasKey(kvs + [pair], k) <==> HasKey(kvs, k) || k == pair.key
  {
    var more := kvs + [pair];
    if HasKey(kvs, k) {
      var i :| 0 <= i < |kvs| && kvs[i].key == k;
      assert more[i].key == k;
    }
    if k == pair.key {
      assert more[|kvs|].key == k;
    }
  }

  lemma DistinctTail(args: seq<Arg>)
    requires args != []
    ensures DistinctKeys(args) <==> DistinctKeys(args[1..]) && FirstIsUnique(args)
  {
    assert forall i | 0 < i < |args| :: args[i] == args[1..][i - 1];
    if DistinctKeys(args[1..]) && FirstIsUnique(args) {
      forall i, j | 0 <= i < j < |args| ensures args[i].key != args[j].key {
        assert args[j] == args[1..][j - 1];
      }
    }
  }

  // For distinct keys the list comes back as it was.
  lemma BuildUndoesDistinct(args: seq<Arg>, trailing: Tokens)
    requires ArgsOk(args) && Trailing(trailing) && DistinctKeys(args)
    ensures BuildKvs(ShowArgs(args, trailing)) == Ok(PairsOf(args))
  {
    BuildUndoesShow(args, trailing);
    DistinctAreCollected(args, []);
    assert AreNew(args, []);
    assert [] + PairsOf(args) == PairsOf(args);
  }

  // ---- every accepted input ----

  predicate KeysDistinct(kvs: seq<Pair>) {
    forall i, j | 0 <= i < j < |kvs| :: kvs[i].key != kvs[j].key
  }

  lemma {:induction false} AcceptedKeysAreDistinct(input: Tokens, kvs: seq<Pair>)
    requires KeysDistinct(kvs)
    ensures Pairs(input, kvs).Ok? ==> KeysDistinct(Pairs(input, kvs).value)
    decreases |input|
  {
    match ParseKey(input, [])
    case Key(key, rest) =>
      var (value, left) := ParseValue(rest);
      if !HasKey(kvs, key) {
        AcceptedKeysAreDistinct(left, kvs + [Pair(key, value)]);
      }
    case _ =>
  }

  // One argument as it stood in the input.
  datatype Cut = Cut(key: Tokens, equals: Token, value: Tokens, comma: Tokens)

  function TextOfAll(ts: Tokens): string {
    if ts == [] then [] else TextOf(ts[0]) + TextOfAll(ts[1..])
  }

  function KeyLength(input: Tokens): (n: nat)
    ensures n <= |input|
  {
    if input == [] || input[0].Punct? then 0 else 1 + KeyLength(input[1..])
  }

  function Cuts(input: Tokens): seq<Cut>
    decreases |input|
  {
    match ParseKey(input, [])
    case Key(_, rest) => [FirstCut(input)] + Cuts(ParseValue(rest).1)
    case _ => []
  }

  function FirstCut(input: Tokens): Cut
    requires ParseKey(input, []).Key?
  {
    KeyTokens(input, []);
    var n, rest := KeyLength(input), ParseKey(input, []).rest;
    CutOf(input[..n], input[n], rest, ValueLength(rest, START))
  }

  function CutOf(key: Tokens, equals: Token, rest: Tokens, m: nat): Cut
    requires m <= |rest|
  {
    Cut(key, equals, rest[..m], if m < |rest| then [rest[m]] else [])
  }

  lemma CutGlues(key: Tokens, equals: Token, rest: Tokens, m: nat)
    requires m <= |rest|
    ensures Glue(CutOf(key, equals, rest, m)) + (if m < |rest| then rest[m + 1..] else []) == key + [equals] + rest
  {
    if m < |rest| {
      assert rest == rest[..m] + [rest[m]] + rest[m + 1..];
    } else {
      assert rest[..m] == rest;
    }
  }

  function Glue(c: Cut): Tokens {
    c.key + [c.equals] + c.value + c.comma
  }

  function GlueAll(cuts: seq<Cut>): Tokens {
    if cuts == [] then [] else Glue(cuts[0]) + GlueAll(cuts[1..])
  }

  function PairsIn(cuts: seq<Cut>): seq<Pair> {
    if cuts == [] then [] else [Pair(TextOfAll(cuts[0].key), cuts[0].value)] + PairsIn(cuts[1..])
  }

  predicate CutOk(c: Cut) {
    IsPunct(c.equals, '=') && (forall t | t in c.key :: !t.Punct?) && Trailing(c.comma)
  }

  predicate CutsOk(cuts: seq<Cut>) {
    forall c | c in cuts :: CutOk(c)
  }

  lemma {:induction false} KeyTokens(input: Tokens, key: string)
    requires ParseKey(input, key).Key?
    ensures var n := KeyLength(input);
      && n < |input| && IsPunct(input[n], '=') && (forall t | t in input[..n] :: !t.Punct?)
      && ParseKey(input, key) == KeyResult.Key(key + TextOfAll(input[..n]), input[n + 1..])
    decreases |input|
  {
    if !input[0].Punct? {
      var text := TextOf(input[0]);
      KeyTokens(input[1..], key + text);
      var n := KeyLength(input);
      assert input[..n] == [input[0]] + input[1..][..n - 1];
      assert key + text + TextOfAll(input[1..][..n - 1]) == key + TextOfAll(input[..n]);
      assert input[1..][n..] == input[n + 1..];
    } else {
      assert key + [] == key;
    }
  }

  lemma {:induction false} ValueEndsAtComma(input: Tokens, a: Angles)
    ensures var n := ValueLength(input, a); n < |input| ==> IsPunct(input[n], ',')
    decreases |input|
  {
    if input != [] && !Stops(a, input[0]) {
      ValueEndsAtComma(input[1..], Next(a, input[0]));
    }
  }

  lemma CutIsFaithful(input: Tokens)
    requires ParseKey(input, []).Key?
    ensures var rest, c := ParseKey(input, []).rest, FirstCut(input);
      && CutOk(c) && Glue(c) + ParseValue(rest).1 == input
      && c.value == ParseValue(rest).0 && TextOfAll(c.key) == ParseKey(input, []).key
  {
    KeyTokens(input, []);
    var n, rest := KeyLength(input), ParseKey(input, []).rest;
    ValueEndsAtComma(rest, START);
    CutGlues(input[..n], input[n], rest, ValueLength(rest, START));
    assert [] + TextOfAll(input[..n]) == TextOfAll(input[..n]);
    assert input == input[..n] + [input[n]] + rest;
  }

  // What no cut covers: the tokens at which the key scanner reports the end.
  function Left(input: Tokens): Tokens
    decreases |input|
  {
    match ParseKey(input, [])
    case Key(_, rest) => Left(ParseValue(rest).1)
    case _ => input
  }

  // Tokens that print as nothing, such as an invisible empty group.
  predicate Unseen(ts: Tokens) {
    forall t | t in ts :: !t.Punct? && TextOf(t) == []
  }

  lemma {:induction false} EndMeansUnseen(input: Tokens, key: string)
    requires ParseKey(input, key).End?
    ensures Unseen(input) && key == []
    decreases |input|
  {
    if input != [] && !input[0].Punct? {
      EndMeansUnseen(input[1..], key + TextOf(input[0]));
    }
  }

  lemma {:induction false} CutsAreFaithful(input: Tokens, kvs: seq<Pair>)
    requires Pairs(input, kvs).Ok?
    ensures GlueAll(Cuts(input)) + Left(input) == input && CutsOk(Cuts(input)) && Unseen(Left(input))
    ensures Pairs(input, kvs).value == kvs + PairsIn(Cuts(input))
    decreases |input|
  {
    match ParseKey(input, [])
    case End =>
      EndMeansUnseen(input, []);
      Alone(input, kvs);
    case Malformed(_) =>
    case Key(key, rest) =>
      var (value, left) := ParseValue(rest);
      CutIsFaithful(input);
      CutsAreFaithful(left, kvs + [Pair(key, value)]);
      ConsCut(FirstCut(input), Cuts(left), Left(left), kvs);
  }

  lemma Alone(input: Tokens, kvs: seq<Pair>)
    ensures GlueAll([]) + input == input && kvs + PairsIn([]) == kvs
  {
  }

  lemma ConsCut(first: Cut, more: seq<Cut>, left: Tokens, kvs: seq<Pair>)
    ensures GlueAll([first] + more) + left == Glue(first) + (GlueAll(more) + left)
    ensures kvs + PairsIn([first] + more) == kvs + [Pair(TextOfAll(first.key), first.value)] + PairsIn(more)
    ensures CutOk(first) && CutsOk(more) ==> CutsOk([first] + more)
  {
    assert ([first] + more)[1..] == more;
  }

  // The tokens after the last comma, wherever that comma stands.
  function AfterComma(ts: Tokens): (tail: Tokens)
    ensures forall t | t in tail :: !IsPunct(t, ',')
  {
    if forall t | t in ts :: !IsPunct(t, ',') then ts else AfterComma(ts[1..])
  }

  // Whether a token stands in a key or, with these brackets open, in a value.
  datatype Half = InKey | InValue(angles: Angles)

  function Cross(h: Half, t: Token): Half {
    match h
    case InKey => if IsPunct(t, '=') then InValue(START) else InKey
    case InValue(a) => if Stops(a, t) then InKey else InValue(Next(a, t))
  }

  function HalfAfter(h: Half, ts: Tokens): Half
    decreases |ts|
  {
    if ts == [] then h else HalfAfter(Cross(h, ts[0]), ts[1..])
  }

  lemma {:induction false} KeyCrosses(input: Tokens, key: string)
    ensures ParseKey(input, key).Key? ==> HalfAfter(InKey, input) == HalfAfter(InValue(START), ParseKey(input, key).rest)
    ensures ParseKey(input, key).End? ==> HalfAfter(InKey, input) == InKey
    decreases |input|
  {
    if input != [] && !input[0].Punct? {
      KeyCrosses(input[1..], key + TextOf(input[0]));
    }
  }

  lemma {:induction false} ValueCrosses(input: Tokens, a: Angles)
    ensures var n := ValueLength(input, a);
      if n < |input| then HalfAfter(InValue(a), input) == HalfAfter(InKey, input[n + 1..])
      else HalfAfter(InValue(a), input).InValue?
    decreases |input|
  {
    if input != [] && !Stops(a, input[0]) {
      ValueCrosses(input[1..], Next(a, input[0]));
      var n := ValueLength(input[1..], Next(a, input[0]));
      assert n < |input| - 1 ==> input[1..][n + 1..] == input[n + 2..];
    }
  }

  lemma {:induction false} AfterCommaOfRest(front: Tokens, comma: Token, rest: Tokens)
    requires IsPunct(comma, ',')
    ensures AfterComma(front + [comma] + rest) == AfterComma(rest)
    decreases |front|
  {
    var ts := front + [comma] + rest;
    assert ts[|front|] == comma && comma in ts;
    if front == [] {
      assert ts[1..] == rest;
    } else {
      AfterCommaOfRest(front[1..], comma, rest);
      assert ts[1..] == front[1..] + [comma] + rest;
    }
  }

  // What is left follows the last comma, if that comma ends an argument.
  lemma {:induction false} LeftIsTheTail(input: Tokens, kvs: seq<Pair>)
    requires Pairs(input, kvs).Ok?
    ensures Left(input) == if HalfAfter(InKey, input).InKey? then AfterComma(input) else []
    decreases |input|
  {
    KeyCrosses(input, []);
    match ParseKey(input, [])
    case End => EndMeansUnseen(input, []);
    case Malformed(_) =>
    case Key(key, rest) =>
      var (value, left) := ParseValue(rest);
      LeftIsTheTail(left, kvs + [Pair(key, value)]);
      ValueCrosses(rest, START);
      CutIsFaithful(input);
      AfterCut(FirstCut(input), left);
  }

  lemma AfterCut(c: Cut, left: Tokens)
    requires CutOk(c)
    ensures c.comma != [] ==> AfterComma(Glue(c) + left) == AfterComma(left)
  {
    if c.comma != [] {
      AfterCommaOfRest(c.key + [c.equals] + c.value, c.comma[0], left);
      assert c.comma == [c.comma[0]];
    }
  }

  // The one way to lose tokens: those after the last comma print as nothing, and that
  // comma ends an argument rather than standing in an unclosed generic list.
  predicate DropsTail(body: Tokens) {
    AfterComma(body) != [] && Unseen(AfterComma(body)) && HalfAfter(InKey, body).InKey?
  }

  // An accepted input is exactly its arguments, each a key without punctuation, an
  // equals sign and its value, set apart by commas, and then what `DropsTail` admits.
  lemma NothingIsDropped(input: Tokens)
    requires input != [] && BuildKvs(input).Ok?
    ensures IsPunct(input[0], ',') && CutsOk(Cuts(input[1..])) && BuildKvs(input).value == PairsIn(Cuts(input[1..]))
    ensures GlueAll(Cuts(input[1..])) + Left(input[1..]) == input[1..]
    ensures Left(input[1..]) == if DropsTail(input[1..]) then AfterComma(input[1..]) else []
  {
    CutsAreFaithful(input[1..], []);
    LeftIsTheTail(input[1..], []);
    assert [] + PairsIn(Cuts(input[1..])) == PairsIn(Cuts(input[1..]));
  }

  // Such a tail exists: an invisible empty group after the last comma is taken for the
  // end of the list.
  lemma EmptyGroupIsDropped(comma: bool)
    ensures var input := [Punct(',', comma), Group([])];
      BuildKvs(input) == Ok([]) && DropsTail(input[1..]) && Left(input[1..]) == [Group([])]
  {
    var input := [Punct(',', comma), Group([])];
    var body := input[1..];
    assert body == [Group([])] && body[1..] == [];
    assert [] + TextOf(body[0]) == [];
    assert ParseKey(body[1..], []) == End;
    assert ParseKey(body, []) == End;
    assert AfterComma(body) == body;
    assert HalfAfter(InKey, body) == HalfAfter(InKey, body[1..]);
  }
}
