// The code generator of the logging macros: format string and arguments become a short
// program of formatter calls. Its meaning is given by running it against expressions
// whose value may depend on everything evaluated before them.

module LformatCode {
  import opened Basics
  import opened LformatArgs
  import Scan = LformatScan

  datatype Statement =
    | WriteLiteral(text: string)        // literal text, still in source form
    | WriteText(text: string)           // ` key=` of a field that is not interpolated
    | WriteVal(value: Tokens)
    | Bind(idx: nat, value: Tokens)
    | WriteValRef(idx: nat)

  datatype LformatError =
    | NotAStringLiteral
    | BadArguments(args: ArgError)
    | BadFormatString
    | KeyNotFound(key: string)

  datatype Generated = Generated(program: seq<Statement>, name: string)

  // ---- code generation ----

  // The first argument with this key.
  function Position(kvs: seq<Pair>, key: string): (r: Option<nat>)
    ensures r.Some? ==> r.value < |kvs| && kvs[r.value].key == key
    ensures r.None? <==> !HasKey(kvs, key)
  {
    if kvs == [] then None
    else
      var earlier := Position(kvs[..|kvs| - 1], key);
      if earlier.Some? then
        assert kvs[earlier.value].key == key;
        earlier
      else if kvs[|kvs| - 1].key == key then Some(|kvs| - 1)
      else
        NotLater(kvs, key);
        None
  }

  lemma NotLater(kvs: seq<Pair>, key: string)
    requires kvs != [] && !HasKey(kvs[..|kvs| - 1], key) && kvs[|kvs| - 1].key != key
    ensures !HasKey(kvs, key)
  {
    forall i | 0 <= i < |kvs| ensures kvs[i].key != key {
      if i < |kvs| - 1 {
        assert kvs[..|kvs| - 1][i] == kvs[i];
      }
    }
  }

  function Here(s: Scan.Segment, kvs: seq<Pair>, i: nat): nat {
    if s.Placeholder? && Position(kvs, s.key) == Some(i) then 1 else 0
  }

  function CountOf(segments: seq<Scan.Segment>, kvs: seq<Pair>, i: nat): nat {
    if segments == [] then 0 else Here(segments[0], kvs, i) + CountOf(segments[1..], kvs, i)
  }

  function UsedKeys(segments: seq<Scan.Segment>): set<string> {
    set s | s in segments && s.Placeholder? :: s.key
  }

  type Code = Result<seq<Statement>, LformatError>

  function Prepend(first: seq<Statement>, rest: Code): Code {
    if rest.Ok? then Ok(first + rest.value) else rest
  }

  // What one placeholder for argument `i` becomes.
  function Use(kvs: seq<Pair>, i: nat, occurrences: nat, bound: set<nat>): seq<Statement>
    requires i < |kvs|
  {
    if occurrences <= 1 then [WriteVal(kvs[i].value)]
    else (if i in bound then [] else [Bind(i, kvs[i].value)]) + [WriteValRef(i)]
  }

  function Interpolate(segments: seq<Scan.Segment>, kvs: seq<Pair>, occurrences: seq<nat>, bound: set<nat>): Code
    requires |occurrences| == |kvs|
  {
    if segments == [] then Ok([])
    else match segments[0]
      case Literal(text) => Prepend([WriteLiteral(text)], Interpolate(segments[1..], kvs, occurrences, bound))
      case Placeholder(key) =>
        match Position(kvs, key)
        case None => Err(KeyNotFound(key))
        case Some(i) =>
          Prepend(Use(kvs, i, occurrences[i], bound),
                  Interpolate(segments[1..], kvs, occurrences, if occurrences[i] > 1 then bound + {i} else bound))
  }

  function FieldText(key: string): string {
    " " + key + "="
  }

  // Arguments that are not interpolated, in call-site order.
  function Trailer(kvs: seq<Pair>, used: set<string>): seq<Statement> {
    if kvs == [] then []
    else if kvs[0].key in used then Trailer(kvs[1..], used)
    else [WriteText(FieldText(kvs[0].key)), WriteVal(kvs[0].value)] + Trailer(kvs[1..], used)
  }

  function Occurrences(segments: seq<Scan.Segment>, kvs: seq<Pair>): (r: seq<nat>)
    ensures |r| == |kvs| && forall i | 0 <= i < |kvs| :: r[i] == CountOf(segments, kvs, i)
  {
    seq(|kvs|, i requires 0 <= i < |kvs| => CountOf(segments, kvs, i))
  }

  function Generate(segments: seq<Scan.Segment>, kvs: seq<Pair>): Code {
    var code := Interpolate(segments, kvs, Occurrences(segments, kvs), {});
    if code.Err? then code else Ok(code.value + Trailer(kvs, UsedKeys(segments)))
  }

  predicate IsStringLiteral(t: Token) {
    t.Literal? && |t.text| >= 2 && t.text[0] == '"' && t.text[|t.text| - 1] == '"'
  }

  function Lformat(input: Tokens): Result<Generated, LformatError> {
    if input == [] || !IsStringLiteral(input[0]) then Err(NotAStringLiteral)
    else
      var format := input[0].text[1..|input[0].text| - 1];
      match BuildKvs(input[1..])
      case Err(e) => Err(BadArguments(e))
      case Ok(kvs) =>
        match Scan.Scan(format, [], [])
        case Err(_) => Err(BadFormatString)
        case Ok(segments) =>
          match Generate(segments, kvs)
          case Err(e) => Err(e)
          case Ok(program) => Ok(Generated(program, format))
  }

  // ---- the loops ----

  method FindKey(kvs: seq<Pair>, key: string) returns (r: Option<nat>)
    ensures r == Position(kvs, key)
  {
    var i := 0;
    while i < |kvs| && kvs[i].key != key
      invariant i <= |kvs| && Position(kvs[..i], key) == None
    {
      assert kvs[..i + 1][..i] == kvs[..i];
      i := i + 1;
    }
    if i == |kvs| {
      assert kvs[..i] == kvs;
      return None;
    }
    assert kvs[..i + 1][..i] == kvs[..i];
    FoundEarly(kvs, i + 1, key);
    return Some(i);
  }

  lemma {:induction false} FoundEarly(kvs: seq<Pair>, n: nat, key: string)
    requires n <= |kvs| && Position(kvs[..n], key).Some?
    ensures Position(kvs, key) == Position(kvs[..n], key)
    decreases |kvs|
  {
    if n < |kvs| {
      assert kvs[..|kvs| - 1][..n] == kvs[..n];
      FoundEarly(kvs[..|kvs| - 1], n, key);
    } else {
      assert kvs[..n] == kvs;
    }
  }

  lemma {:induction false} CountSplits(segments: seq<Scan.Segment>, n: nat, kvs: seq<Pair>, i: nat)
    requires n <= |segments|
    ensures CountOf(segments, kvs, i) == CountOf(segments[..n], kvs, i) + CountOf(segments[n..], kvs, i)
    decreases |segments|
  {
    if n == 0 {
      assert segments[n..] == segments;
    } else {
      assert segments[..n][1..] == segments[1..][..n - 1] && segments[n..] == segments[1..][n - 1..];
      CountSplits(segments[1..], n - 1, kvs, i);
    }
  }

  method CountUses(segments: seq<Scan.Segment>, kvs: seq<Pair>) returns (occurrences: seq<nat>)
    ensures occurrences == Occurrences(segments, kvs)
  {
    occurrences := seq(|kvs|, _ => 0);
    for n := 0 to |segments|
      invariant |occurrences| == |kvs|
      invariant forall i | 0 <= i < |kvs| :: occurrences[i] == CountOf(segments[..n], kvs, i)
    {
      forall i | 0 <= i < |kvs|
        ensures CountOf(segments[..n + 1], kvs, i) == CountOf(segments[..n], kvs, i) + CountOf([segments[n]], kvs, i)
      {
        CountSplits(segments[..n + 1], n, kvs, i);
        assert [segments[n]][1..] == [];
        assert segments[..n + 1][..n] == segments[..n] && segments[..n + 1][n..] == [segments[n]];
      }
      forall i | 0 <= i < |kvs| ensures CountOf([segments[n]], kvs, i) == Here(segments[n], kvs, i) {
        assert [segments[n]][1..] == [];
      }
      match segments[n] {
        case Literal(_) =>
        case Placeholder(key) =>
          var idx := FindKey(kvs, key);
          if idx.Some? {
            occurrences := occurrences[idx.value := occurrences[idx.value] + 1];
          }
      }
    }
    assert segments[..|segments|] == segments;
  }

  method EmitInterpolated(segments: seq<Scan.Segment>, kvs: seq<Pair>, occurrences: seq<nat>) returns (r: Code, used: set<string>)
    requires |occurrences| == |kvs|
    ensures r == Interpolate(segments, kvs, occurrences, {})
    ensures r.Ok? ==> used == UsedKeys(segments)
  {
    var source: seq<Statement>, bound: set<nat> := [], {};
    used := {};
    assert segments[0..] == segments;
    EmptyPrefix(Interpolate(segments, kvs, occurrences, {}));
    for n := 0 to |segments|
      invariant used == UsedKeys(segments[..n])
      invariant Interpolate(segments, kvs, occurrences, {})
        == Prepend(source, Interpolate(segments[n..], kvs, occurrences, bound))
    {
      assert segments[n..][0] == segments[n] && segments[n..][1..] == segments[n + 1..];
      assert segments[..n + 1] == segments[..n] + [segments[n]];
      match segments[n] {
        case Literal(text) =>
          PrependTwice(source, [WriteLiteral(text)], Interpolate(segments[n + 1..], kvs, occurrences, bound));
          source := source + [WriteLiteral(text)];
        case Placeholder(key) =>
          var idx := FindKey(kvs, key);
          if idx.None? {
            return Err(KeyNotFound(key)), used;
          }
          var i := idx.value;
          ghost var before := bound;
          used := used + {key};
          var code: seq<Statement>;
          if occurrences[i] > 1 {
            code := [];
            if i !in bound {
              code := [Bind(i, kvs[i].value)];
            }
            bound := bound + {i};
            code := code + [WriteValRef(i)];
          } else {
            code := [WriteVal(kvs[i].value)];
          }
          assert code == Use(kvs, i, occurrences[i], before);
          PrependTwice(source, code, Interpolate(segments[n + 1..], kvs, occurrences, bound));
          source := source + code;
      }
    }
    assert segments[..|segments|] == segments && segments[|segments|..] == [];
    assert source + [] == source;
    r := Ok(source);
  }

  lemma EmptyPrefix(c: Code)
    ensures Prepend([], c) == c
  {
    if c.Ok? { assert [] + c.value == c.value; }
  }

  lemma PrependTwice(a: seq<Statement>, b: seq<Statement>, c: Code)
    ensures Prepend(a, Prepend(b, c)) == Prepend(a + b, c)
  {
    if c.Ok? { assert a + (b + c.value) == a + b + c.value; }
  }

  method EmitTrailer(kvs: seq<Pair>, used: set<string>) returns (code: seq<Statement>)
    ensures code == Trailer(kvs, used)
  {
    code := [];
    assert kvs[0..] == kvs && [] + Trailer(kvs, used) == Trailer(kvs, used);
    for n := 0 to |kvs|
      invariant Trailer(kvs, used) == code + Trailer(kvs[n..], used)
    {
      assert kvs[n..][0] == kvs[n] && kvs[n..][1..] == kvs[n + 1..];
      if kvs[n].key !in used {
        code := code + [WriteText(FieldText(kvs[n].key)), WriteVal(kvs[n].value)];
      }
    }
    assert kvs[|kvs|..] == [] && code + [] == code;
  }

  method LformatImpl(input: Tokens) returns (r: Result<Generated, LformatError>)
    ensures r == Lformat(input)
  {
    if input == [] || !IsStringLiteral(input[0]) {
      return Err(NotAStringLiteral);
    }
    var format := input[0].text[1..|input[0].text| - 1];
    var kvs := ScanArguments(input[1..]);
    if kvs.Err? {
      return Err(BadArguments(kvs.error));
    }
    var segments := Scan.ScanFormatString(format);
    if segments.Err? {
      return Err(BadFormatString);
    }
    var occurrences := CountUses(segments.value, kvs.value);
    var code, used := EmitInterpolated(segments.value, kvs.value, occurrences);
    if code.Err? {
      return Err(code.error);
    }
    var trailer := EmitTrailer(kvs.value, used);
    return Ok(Generated(code.value + trailer, format));
  }

  // ---- running the program ----

  datatype Out<V> = Source(text: string) | Text(text: string) | Shown(value: V)

  // What has been written, which expressions were evaluated, and the bound variables.
  datatype Machine<V> = Machine(output: seq<Out<V>>, history: seq<Tokens>, env: map<nat, V>)

  type Eval<!V> = (seq<Tokens>, Tokens) -> V

  // None: a variable was used before it was bound.
  function Exec<V>(m: Machine<V>, s: Statement, eval: Eval<V>): Option<Machine<V>> {
    match s
    case WriteLiteral(text) => Some(m.(output := m.output + [Source(text)]))
    case WriteText(text) => Some(m.(output := m.output + [Text(text)]))
    case WriteVal(e) => Some(m.(output := m.output + [Shown(eval(m.history, e))], history := m.history + [e]))
    case Bind(i, e) => Some(m.(env := m.env[i := eval(m.history, e)], history := m.history + [e]))
    case WriteValRef(i) => if i in m.env then Some(m.(output := m.output + [Shown(m.env[i])])) else None
  }

  function ExecAll<V>(m: Machine<V>, program: seq<Statement>, eval: Eval<V>): Option<Machine<V>>
    decreases |program|
  {
    if program == [] then Some(m)
    else
      var n := Exec(m, program[0], eval);
      if n.None? then None else ExecAll(n.value, program[1..], eval)
  }

  // ---- what the format string means ----

  predicate Resolves(segments: seq<Scan.Segment>, kvs: seq<Pair>) {
    forall s | s in segments && s.Placeholder? :: HasKey(kvs, s.key)
  }

  // Output and evaluated expressions, before and after: every literal in place, every
  // placeholder its argument's value, worked out where it is first needed.
  datatype Trace<V> = Trace(output: seq<Out<V>>, history: seq<Tokens>)

  function Meaning<V>(
      segments: seq<Scan.Segment>, kvs: seq<Pair>, eval: Eval<V>, memo: map<string, V>, t: Trace<V>): Trace<V>
    requires Resolves(segments, kvs)
  {
    if segments == [] then t
    else match segments[0]
      case Literal(text) => Meaning(segments[1..], kvs, eval, memo, t.(output := t.output + [Source(text)]))
      case Placeholder(key) =>
        if key in memo then Meaning(segments[1..], kvs, eval, memo, t.(output := t.output + [Shown(memo[key])]))
        else
          var e := kvs[Position(kvs, key).value].value;
          var v := eval(t.history, e);
          Meaning(segments[1..], kvs, eval, memo[key := v], Trace(t.output + [Shown(v)], t.history + [e]))
  }

  // Then ` key=` and the value of every argument that was not interpolated.
  function Fields<V>(kvs: seq<Pair>, used: set<string>, eval: Eval<V>, t: Trace<V>): Trace<V> {
    if kvs == [] then t
    else if kvs[0].key in used then Fields(kvs[1..], used, eval, t)
    else
      var v := eval(t.history, kvs[0].value);
      Fields(kvs[1..], used, eval,
             Trace(t.output + [Text(FieldText(kvs[0].key)), Shown(v)], t.history + [kvs[0].value]))
  }

  function Intended<V>(segments: seq<Scan.Segment>, kvs: seq<Pair>, eval: Eval<V>): Trace<V>
    requires Resolves(segments, kvs)
  {
    Fields(kvs, UsedKeys(segments), eval, Meaning(segments, kvs, eval, map[], Trace([], [])))
  }

  // ---- the program means what the format string says ----

  lemma {:induction false} ExecBoth<V>(m: Machine<V>, a: seq<Statement>, b: seq<Statement>, eval: Eval<V>)
    requires ExecAll(m, a, eval).Some?
    ensures ExecAll(m, a + b, eval) == ExecAll(ExecAll(m, a, eval).value, b, eval)
    decreases |a|
  {
    if a == [] {
      assert a + b == b;
    } else {
      ExecBoth(Exec(m, a[0], eval).value, a[1..], b, eval);
      assert (a + b)[1..] == a[1..] + b;
    }
  }

  lemma ExecOne<V>(m: Machine<V>, s: Statement, eval: Eval<V>)
    ensures ExecAll(m, [s], eval) == Exec(m, s, eval)
  {
    assert [s][1..] == [];
  }

  lemma ExecTwo<V>(m: Machine<V>, s: Statement, t: Statement, eval: Eval<V>)
    requires Exec(m, s, eval).Some?
    ensures ExecAll(m, [s, t], eval) == Exec(Exec(m, s, eval).value, t, eval)
  {
    assert [s, t][1..] == [t];
    ExecOne(Exec(m, s, eval).value, t, eval);
  }

  predicate Same<V(==)>(m: Machine<V>, t: Trace<V>) {
    m.output == t.output && m.history == t.history
  }

  // A key used more than once is bound exactly when its value is already known, and to
  // that value; a key still to come has uses left to come.
  predicate Remembers<V(==)>(
      m: Machine<V>, memo: map<string, V>, rest: seq<Scan.Segment>, kvs: seq<Pair>, occurrences: seq<nat>, bound: set<nat>)
    requires |occurrences| == |kvs|
  {
    forall i | 0 <= i < |kvs| :: RemembersOne(m.env, memo, bound, i, kvs[i].key, CountOf(rest, kvs, i), occurrences[i])
  }

  // Of one argument with `left` uses to come out of `occurrences`.
  predicate RemembersOne<V(==)>(
      env: map<nat, V>, memo: map<string, V>, bound: set<nat>, i: nat, key: string, left: nat, occurrences: nat)
  {
    && left + (if key in memo then 1 else 0) <= occurrences
    && (occurrences > 1 ==> (i in bound <==> key in memo))
    && (occurrences > 1 && i in bound ==> i in env && env[i] == memo[key])
  }

  // One placeholder: the program's statements do what the meaning asks for.
  lemma UseMeans<V>(
      m: Machine<V>, memo: map<string, V>, rest: seq<Scan.Segment>, kvs: seq<Pair>, occurrences: seq<nat>, bound: set<nat>,
      i: nat, eval: Eval<V>)
    requires |occurrences| == |kvs| && i < |kvs| && KeysDistinct(kvs)
    requires rest != [] && rest[0] == Scan.Placeholder(kvs[i].key) && Position(kvs, kvs[i].key) == Some(i)
    requires Remembers(m, memo, rest, kvs, occurrences, bound)
    ensures var key, e := kvs[i].key, kvs[i].value;
      var v := if key in memo then memo[key] else eval(m.history, e);
      var n := ExecAll(m, Use(kvs, i, occurrences[i], bound), eval);
      && n.Some? && n.value.output == m.output + [Shown(v)]
      && n.value.history == (if key in memo then m.history else m.history + [e])
      && Remembers(n.value, memo[key := v], rest[1..], kvs, occurrences,
                   if occurrences[i] > 1 then bound + {i} else bound)
  {
    assert CountOf(rest, kvs, i) == 1 + CountOf(rest[1..], kvs, i);
    UseRuns(m, memo, kvs, occurrences[i], bound, i, eval);
    var key, e := kvs[i].key, kvs[i].value;
    var v := if key in memo then memo[key] else eval(m.history, e);
    UseRemembers(m, memo, rest, kvs, occurrences, bound, i,
                 ExecAll(m, Use(kvs, i, occurrences[i], bound), eval).value, v);
  }

  // What a placeholder for one argument leaves bound.
  function EnvAfter<V>(env: map<nat, V>, occurrences: nat, bound: set<nat>, i: nat, v: V): map<nat, V> {
    if occurrences <= 1 || i in bound then env else env[i := v]
  }

  lemma UseRuns<V>(
      m: Machine<V>, memo: map<string, V>, kvs: seq<Pair>, occurrences: nat, bound: set<nat>, i: nat, eval: Eval<V>)
    requires i < |kvs|
    requires if occurrences > 1 then i in bound <==> kvs[i].key in memo else kvs[i].key !in memo
    requires occurrences > 1 && i in bound ==> i in m.env && m.env[i] == memo[kvs[i].key]
    ensures var key, e := kvs[i].key, kvs[i].value;
      var v := if key in memo then memo[key] else eval(m.history, e);
      var n := ExecAll(m, Use(kvs, i, occurrences, bound), eval);
      && n.Some? && n.value.output == m.output + [Shown(v)]
      && n.value.history == (if key in memo then m.history else m.history + [e])
      && n.value.env == EnvAfter(m.env, occurrences, bound, i, v)
  {
    var e := kvs[i].value;
    if occurrences <= 1 {
      ExecOne(m, WriteVal(e), eval);
    } else if i in bound {
      assert [] + [WriteValRef(i)] == [WriteValRef(i)];
      ExecOne(m, WriteValRef(i), eval);
    } else {
      assert [Bind(i, e)] + [WriteValRef(i)] == [Bind(i, e), WriteValRef(i)];
      ExecTwo(m, Bind(i, e), WriteValRef(i), eval);
    }
  }

  lemma UseRemembers<V>(
      m: Machine<V>, memo: map<string, V>, rest: seq<Scan.Segment>, kvs: seq<Pair>, occurrences: seq<nat>, bound: set<nat>,
      i: nat, n: Machine<V>, v: V)
    requires |occurrences| == |kvs| && i < |kvs| && KeysDistinct(kvs)
    requires rest != [] && rest[0] == Scan.Placeholder(kvs[i].key) && Position(kvs, kvs[i].key) == Some(i)
    requires Remembers(m, memo, rest, kvs, occurrences, bound)
    requires kvs[i].key in memo ==> v == memo[kvs[i].key]
    requires n.env == EnvAfter(m.env, occurrences[i], bound, i, v)
    ensures Remembers(n, memo[kvs[i].key := v], rest[1..], kvs, occurrences,
                      if occurrences[i] > 1 then bound + {i} else bound)
  {
    var more, larger := memo[kvs[i].key := v], if occurrences[i] > 1 then bound + {i} else bound;
    forall j | 0 <= j < |kvs|
      ensures RemembersOne(n.env, more, larger, j, kvs[j].key, CountOf(rest[1..], kvs, j), occurrences[j])
    {
      assert RemembersOne(m.env, memo, bound, j, kvs[j].key, CountOf(rest, kvs, j), occurrences[j]);
      UseCounts(rest, kvs, i, j);
      if j == i {
        UsedIsRemembered(m.env, memo, bound, i, kvs[i].key, CountOf(rest[1..], kvs, i), occurrences[i], v);
      }
    }
  }

  lemma UsedIsRemembered<V>(
      env: map<nat, V>, memo: map<string, V>, bound: set<nat>, i: nat, key: string, left: nat, occurrences: nat, v: V)
    requires RemembersOne(env, memo, bound, i, key, left + 1, occurrences) && (key in memo ==> v == memo[key])
    ensures RemembersOne(EnvAfter(env, occurrences, bound, i, v), memo[key := v],
                         if occurrences > 1 then bound + {i} else bound, i, key, left, occurrences)
  {
  }

  // One use goes, of this argument and of no other.
  lemma UseCounts(rest: seq<Scan.Segment>, kvs: seq<Pair>, i: nat, j: nat)
    requires i < |kvs| && j < |kvs| && KeysDistinct(kvs)
    requires rest != [] && rest[0] == Scan.Placeholder(kvs[i].key) && Position(kvs, kvs[i].key) == Some(i)
    ensures CountOf(rest, kvs, j) == (if j == i then 1 else 0) + CountOf(rest[1..], kvs, j)
    ensures kvs[j].key == kvs[i].key <==> j == i
  {
  }

  lemma {:induction false} InterpolationMeans<V>(
      rest: seq<Scan.Segment>, kvs: seq<Pair>, occurrences: seq<nat>, bound: set<nat>,
      m: Machine<V>, memo: map<string, V>, t: Trace<V>, eval: Eval<V>)
    requires |occurrences| == |kvs| && KeysDistinct(kvs) && Resolves(rest, kvs)
    requires Same(m, t) && Remembers(m, memo, rest, kvs, occurrences, bound)
    ensures var code := Interpolate(rest, kvs, occurrences, bound);
      code.Ok? && ExecAll(m, code.value, eval).Some?
      && Same(ExecAll(m, code.value, eval).value, Meaning(rest, kvs, eval, memo, t))
    decreases |rest|
  {
    if rest != [] {
      match rest[0] {
        case Literal(text) =>
          var n := Exec(m, WriteLiteral(text), eval).value;
          ExecOne(m, WriteLiteral(text), eval);
          InterpolationMeans(rest[1..], kvs, occurrences, bound, n, memo, t.(output := t.output + [Source(text)]), eval);
          ExecBoth(m, [WriteLiteral(text)], Interpolate(rest[1..], kvs, occurrences, bound).value, eval);
        case Placeholder(key) =>
          var i := Position(kvs, key).value;
          var code := Use(kvs, i, occurrences[i], bound);
          UseMeans(m, memo, rest, kvs, occurrences, bound, i, eval);
          var n := ExecAll(m, code, eval).value;
          var next := if occurrences[i] > 1 then bound + {i} else bound;
          var v := if key in memo then memo[key] else eval(m.history, kvs[i].value);
          assert key in memo ==> memo[key := v] == memo;
          var u := Trace(t.output + [Shown(v)], if key in memo then t.history else t.history + [kvs[i].value]);
          InterpolationMeans(rest[1..], kvs, occurrences, next, n, memo[key := v], u, eval);
          ExecBoth(m, code, Interpolate(rest[1..], kvs, occurrences, next).value, eval);
      }
    }
  }

  lemma {:induction false} TrailerMeans<V>(kvs: seq<Pair>, used: set<string>, m: Machine<V>, t: Trace<V>, eval: Eval<V>)
    requires Same(m, t)
    ensures ExecAll(m, Trailer(kvs, used), eval).Some?
    ensures Same(ExecAll(m, Trailer(kvs, used), eval).value, Fields(kvs, used, eval, t))
    decreases |kvs|
  {
    if kvs != [] {
      if kvs[0].key in used {
        TrailerMeans(kvs[1..], used, m, t, eval);
      } else {
        var tag, show := WriteText(FieldText(kvs[0].key)), WriteVal(kvs[0].value);
        ExecTwo(m, tag, show, eval);
        var n := ExecAll(m, [tag, show], eval).value;
        var v := eval(m.history, kvs[0].value);
        assert n.output == m.output + [Text(FieldText(kvs[0].key)), Shown(v)];
        TrailerMeans(kvs[1..], used, n,
                     Trace(t.output + [Text(FieldText(kvs[0].key)), Shown(v)], t.history + [kvs[0].value]), eval);
        ExecBoth(m, [tag, show], Trailer(kvs[1..], used), eval);
      }
    }
  }

  // The generated program never uses an unbound variable, writes exactly what the
  // format string means, and evaluates exactly the expressions it calls for.
  lemma ProgramMeans<V>(segments: seq<Scan.Segment>, kvs: seq<Pair>, eval: Eval<V>)
    requires KeysDistinct(kvs) && Resolves(segments, kvs)
    ensures Generate(segments, kvs).Ok?
    ensures var m := ExecAll(Machine([], [], map[]), Generate(segments, kvs).value, eval);
      m.Some? && Same(m.value, Intended(segments, kvs, eval))
  {
    var start: Machine<V> := Machine([], [], map[]);
    var occurrences := Occurrences(segments, kvs);
    InterpolationMeans(segments, kvs, occurrences, {}, start, map[], Trace([], []), eval);
    var code := Interpolate(segments, kvs, occurrences, {}).value;
    var m := ExecAll(start, code, eval).value;
    TrailerMeans(kvs, UsedKeys(segments), m, Meaning(segments, kvs, eval, map[], Trace([], [])), eval);
    ExecBoth(start, code, Trailer(kvs, UsedKeys(segments)), eval);
  }

  lemma {:induction false} Missing(segments: seq<Scan.Segment>, kvs: seq<Pair>, occurrences: seq<nat>, bound: set<nat>)
    requires |occurrences| == |kvs|
    ensures Interpolate(segments, kvs, occurrences, bound).Ok? <==> Resolves(segments, kvs)
    decreases |segments|
  {
    if segments != [] {
      assert Resolves(segments, kvs) <==>
        Resolves(segments[1..], kvs) && (segments[0].Placeholder? ==> HasKey(kvs, segments[0].key)) by {
        assert segments == [segments[0]] + segments[1..];
      }
      if segments[0].Literal? {
        Missing(segments[1..], kvs, occurrences, bound);
      } else {
        var p := Position(kvs, segments[0].key);
        if p.Some? {
          Missing(segments[1..], kvs, occurrences, if occurrences[p.value] > 1 then bound + {p.value} else bound);
        }
      }
    }
  }

  // ---- the order of evaluation ----

  // Arguments in the order their keys first appear, keys in `seen` left out.
  function FirstUses(segments: seq<Scan.Segment>, kvs: seq<Pair>, seen: set<string>): seq<nat>
    requires Resolves(segments, kvs)
  {
    if segments == [] then []
    else match segments[0]
      case Literal(_) => FirstUses(segments[1..], kvs, seen)
      case Placeholder(key) =>
        if key in seen then FirstUses(segments[1..], kvs, seen)
        else [Position(kvs, key).value] + FirstUses(segments[1..], kvs, seen + {key})
  }

  function Leftover(kvs: seq<Pair>, used: set<string>, from: nat): seq<nat>
    requires from <= |kvs|
    decreases |kvs| - from
  {
    if from == |kvs| then []
    else (if kvs[from].key in used then [] else [from]) + Leftover(kvs, used, from + 1)
  }

  function Order(segments: seq<Scan.Segment>, kvs: seq<Pair>): seq<nat>
    requires Resolves(segments, kvs)
  {
    FirstUses(segments, kvs, {}) + Leftover(kvs, UsedKeys(segments), 0)
  }

  predicate Within(order: seq<nat>, n: nat) {
    forall k | 0 <= k < |order| :: order[k] < n
  }

  function Values(kvs: seq<Pair>, order: seq<nat>): seq<Tokens>
    requires Within(order, |kvs|)
  {
    if order == [] then [] else [kvs[order[0]].value] + Values(kvs, order[1..])
  }

  predicate NoRepeats(order: seq<nat>) {
    forall i, j | 0 <= i < j < |order| :: order[i] != order[j]
  }

  lemma UsedTail(segments: seq<Scan.Segment>)
    requires segments != []
    ensures UsedKeys(segments)
      == UsedKeys(segments[1..]) + (if segments[0].Placeholder? then {segments[0].key} else {})
  {
    assert segments == [segments[0]] + segments[1..];
  }

  lemma {:induction false} FirstUsesAreNew(segments: seq<Scan.Segment>, kvs: seq<Pair>, seen: set<string>)
    requires Resolves(segments, kvs) && KeysDistinct(kvs)
    ensures var order := FirstUses(segments, kvs, seen);
      && NoRepeats(order) && Within(order, |kvs|)
      && (forall i | i in order :: kvs[i].key in UsedKeys(segments) && kvs[i].key !in seen)
      && (forall i | 0 <= i < |kvs| && kvs[i].key in UsedKeys(segments) && kvs[i].key !in seen :: i in order)
    decreases |segments|
  {
    if segments != [] {
      UsedTail(segments);
      var s := segments[0];
      if s.Literal? || s.key in seen {
        FirstUsesAreNew(segments[1..], kvs, seen);
      } else {
        FirstUsesAreNew(segments[1..], kvs, seen + {s.key});
      }
    }
  }

  // The unused arguments from `from` on, each once.
  predicate IsRest(order: seq<nat>, kvs: seq<Pair>, used: set<string>, from: nat) {
    && NoRepeats(order) && Within(order, |kvs|)
    && (forall i | i in order :: from <= i < |kvs| && kvs[i].key !in used)
    && (forall i | from <= i < |kvs| && kvs[i].key !in used :: i in order)
  }

  lemma {:induction false} LeftoverIsTheRest(kvs: seq<Pair>, used: set<string>, from: nat)
    requires from <= |kvs|
    ensures IsRest(Leftover(kvs, used, from), kvs, used, from)
    decreases |kvs| - from
  {
    if from < |kvs| {
      LeftoverIsTheRest(kvs, used, from + 1);
      if kvs[from].key in used {
        RestSkips(kvs, used, from, Leftover(kvs, used, from + 1));
      } else {
        RestTakes(kvs, used, from, Leftover(kvs, used, from + 1));
      }
    }
  }

  lemma RestSkips(kvs: seq<Pair>, used: set<string>, from: nat, rest: seq<nat>)
    requires from < |kvs| && kvs[from].key in used && IsRest(rest, kvs, used, from + 1)
    ensures IsRest([] + rest, kvs, used, from)
  {
    assert [] + rest == rest;
  }

  lemma RestTakes(kvs: seq<Pair>, used: set<string>, from: nat, rest: seq<nat>)
    requires from < |kvs| && kvs[from].key !in used && IsRest(rest, kvs, used, from + 1)
    ensures IsRest([from] + rest, kvs, used, from)
  {
    FirstOfMore(from, rest, |kvs|);
  }

  lemma FirstOfMore(first: nat, rest: seq<nat>, n: nat)
    requires first < n && Within(rest, n) && NoRepeats(rest) && forall i | i in rest :: i > first
    ensures Within([first] + rest, n) && NoRepeats([first] + rest)
    ensures forall i :: i in [first] + rest <==> i == first || i in rest
  {
    var all := [first] + rest;
    forall i, j | 0 <= i < j < |all| ensures all[i] != all[j] {
      assert all[j] == rest[j - 1] && rest[j - 1] in rest;
      if i > 0 { assert all[i] == rest[i - 1]; }
    }
    forall i ensures i in all <==> i == first || i in rest {
      if i in rest {
        var k :| 0 <= k < |rest| && rest[k] == i;
        assert all[k + 1] == i;
      }
    }
  }

  // Every argument appears in the order exactly once.
  lemma OrderIsPermutation(segments: seq<Scan.Segment>, kvs: seq<Pair>)
    requires Resolves(segments, kvs) && KeysDistinct(kvs)
    ensures NoRepeats(Order(segments, kvs)) && Within(Order(segments, kvs), |kvs|)
    ensures forall i: nat :: i in Order(segments, kvs) <==> i < |kvs|
  {
    var x, y := FirstUses(segments, kvs, {}), Leftover(kvs, UsedKeys(segments), 0);
    FirstUsesAreNew(segments, kvs, {});
    LeftoverIsTheRest(kvs, UsedKeys(segments), 0);
    forall i | i in x ensures i !in y {}
    NoRepeatsBoth(x, y);
  }

  lemma NoRepeatsBoth(x: seq<nat>, y: seq<nat>)
    requires NoRepeats(x) && NoRepeats(y) && forall i | i in x :: i !in y
    ensures NoRepeats(x + y)
  {
    forall i, j | 0 <= i < j < |x + y| ensures (x + y)[i] != (x + y)[j] {
      if i < |x| <= j {
        assert x[i] in x && y[j - |x|] in y;
      }
    }
  }

  lemma {:induction false} ValuesBoth(kvs: seq<Pair>, x: seq<nat>, y: seq<nat>)
    requires Within(x, |kvs|) && Within(y, |kvs|)
    ensures Within(x + y, |kvs|) && Values(kvs, x + y) == Values(kvs, x) + Values(kvs, y)
    decreases |x|
  {
    if x == [] {
      assert x + y == y;
    } else {
      ValuesBoth(kvs, x[1..], y);
      assert (x + y)[1..] == x[1..] + y;
    }
  }

  lemma {:induction false} MeaningHistory<V>(
      segments: seq<Scan.Segment>, kvs: seq<Pair>, eval: Eval<V>, memo: map<string, V>, t: Trace<V>)
    requires Resolves(segments, kvs) && KeysDistinct(kvs)
    ensures Within(FirstUses(segments, kvs, memo.Keys), |kvs|)
    ensures Meaning(segments, kvs, eval, memo, t).history
      == t.history + Values(kvs, FirstUses(segments, kvs, memo.Keys))
    decreases |segments|
  {
    FirstUsesAreNew(segments, kvs, memo.Keys);
    if segments != [] {
      match segments[0]
      case Literal(text) =>
        MeaningHistory(segments[1..], kvs, eval, memo, t.(output := t.output + [Source(text)]));
      case Placeholder(key) =>
        if key in memo {
          MeaningHistory(segments[1..], kvs, eval, memo, t.(output := t.output + [Shown(memo[key])]));
        } else {
          var i := Position(kvs, key).value;
          var v := eval(t.history, kvs[i].value);
          assert memo[key := v].Keys == memo.Keys + {key};
          MeaningHistory(segments[1..], kvs, eval, memo[key := v],
                         Trace(t.output + [Shown(v)], t.history + [kvs[i].value]));
          ConsHistory(t.history, kvs[i].value, Values(kvs, FirstUses(segments[1..], kvs, memo.Keys + {key})));
        }
    }
  }

  lemma ConsHistory(h: seq<Tokens>, e: Tokens, rest: seq<Tokens>)
    ensures h + [e] + rest == h + ([e] + rest)
  {
  }

  lemma {:induction false} FieldsHistory<V>(kvs: seq<Pair>, used: set<string>, from: nat, eval: Eval<V>, t: Trace<V>)
    requires from <= |kvs|
    ensures Within(Leftover(kvs, used, from), |kvs|)
    ensures Fields(kvs[from..], used, eval, t).history == t.history + Values(kvs, Leftover(kvs, used, from))
    decreases |kvs| - from
  {
    LeftoverIsTheRest(kvs, used, from);
    if from < |kvs| {
      assert kvs[from..][0] == kvs[from] && kvs[from..][1..] == kvs[from + 1..];
      if kvs[from].key in used {
        FieldsHistory(kvs, used, from + 1, eval, t);
        assert [] + Leftover(kvs, used, from + 1) == Leftover(kvs, used, from + 1);
      } else {
        var v := eval(t.history, kvs[from].value);
        FieldsHistory(kvs, used, from + 1, eval,
                      Trace(t.output + [Text(FieldText(kvs[from].key)), Shown(v)], t.history + [kvs[from].value]));
        ConsHistory(t.history, kvs[from].value, Values(kvs, Leftover(kvs, used, from + 1)));
      }
    }
  }

  lemma IntendedHistory<V>(segments: seq<Scan.Segment>, kvs: seq<Pair>, eval: Eval<V>)
    requires Resolves(segments, kvs) && KeysDistinct(kvs) && Within(Order(segments, kvs), |kvs|)
    ensures Intended(segments, kvs, eval).history == Values(kvs, Order(segments, kvs))
  {
    var none: map<string, V> := map[];
    MeaningHistory(segments, kvs, eval, none, Trace([], []));
    var t := Meaning(segments, kvs, eval, none, Trace([], []));
    var x, y := FirstUses(segments, kvs, {}), Leftover(kvs, UsedKeys(segments), 0);
    assert none.Keys == {} && [] + Values(kvs, x) == Values(kvs, x);
    FieldsHistory(kvs, UsedKeys(segments), 0, eval, t);
    assert kvs[0..] == kvs;
    ValuesBoth(kvs, x, y);
  }

  // Each value expression is evaluated exactly once: interpolated ones in first-use
  // order, then the others in call-site order.
  lemma EvaluatedOnce<V>(segments: seq<Scan.Segment>, kvs: seq<Pair>, eval: Eval<V>)
    requires Resolves(segments, kvs) && KeysDistinct(kvs)
    ensures Within(Order(segments, kvs), |kvs|) && NoRepeats(Order(segments, kvs))
    ensures forall i: nat :: i in Order(segments, kvs) <==> i < |kvs|
    ensures Intended(segments, kvs, eval).history == Values(kvs, Order(segments, kvs))
  {
    OrderIsPermutation(segments, kvs);
    IntendedHistory(segments, kvs, eval);
  }

  // Where a key is first used.
  function FirstAt(segments: seq<Scan.Segment>, key: string): nat {
    if segments == [] || segments[0] == Scan.Placeholder(key) then 0 else 1 + FirstAt(segments[1..], key)
  }

  predicate Ascends(segments: seq<Scan.Segment>, kvs: seq<Pair>, order: seq<nat>)
    requires Within(order, |kvs|)
  {
    forall i, j | 0 <= i < j < |order| :: FirstAt(segments, kvs[order[i]].key) < FirstAt(segments, kvs[order[j]].key)
  }

  // First-use order is the order in which the keys first appear in the format string.
  lemma {:induction false} FirstUsesAscend(segments: seq<Scan.Segment>, kvs: seq<Pair>, seen: set<string>)
    requires Resolves(segments, kvs) && KeysDistinct(kvs)
    ensures Within(FirstUses(segments, kvs, seen), |kvs|)
    ensures Ascends(segments, kvs, FirstUses(segments, kvs, seen))
    decreases |segments|
  {
    FirstUsesAreNew(segments, kvs, seen);
    if segments != [] {
      var s := segments[0];
      if s.Literal? || s.key in seen {
        FirstUsesAscend(segments[1..], kvs, seen);
        ShiftAscends(segments, kvs, FirstUses(segments, kvs, seen));
      } else {
        var tail := FirstUses(segments[1..], kvs, seen + {s.key});
        FirstUsesAscend(segments[1..], kvs, seen + {s.key});
        FirstUsesAreNew(segments[1..], kvs, seen + {s.key});
        ShiftAscends(segments, kvs, tail);
        HeadAscends(segments, kvs, Position(kvs, s.key).value, tail);
      }
    }
  }

  lemma ShiftAscends(segments: seq<Scan.Segment>, kvs: seq<Pair>, order: seq<nat>)
    requires segments != [] && Within(order, |kvs|) && Ascends(segments[1..], kvs, order)
    requires forall i | i in order :: segments[0] != Scan.Placeholder(kvs[i].key)
    ensures Ascends(segments, kvs, order)
  {
    forall i, j | 0 <= i < j < |order|
      ensures FirstAt(segments, kvs[order[i]].key) < FirstAt(segments, kvs[order[j]].key)
    {
      assert order[i] in order && order[j] in order;
    }
  }

  lemma HeadAscends(segments: seq<Scan.Segment>, kvs: seq<Pair>, first: nat, order: seq<nat>)
    requires segments != [] && first < |kvs| && segments[0] == Scan.Placeholder(kvs[first].key)
    requires Within(order, |kvs|) && Ascends(segments, kvs, order)
    requires forall i | i in order :: segments[0] != Scan.Placeholder(kvs[i].key)
    ensures Ascends(segments, kvs, [first] + order)
  {
    var all := [first] + order;
    forall i, j | 0 <= i < j < |all|
      ensures FirstAt(segments, kvs[all[i]].key) < FirstAt(segments, kvs[all[j]].key)
    {
      assert all[j] == order[j - 1] && order[j - 1] in order;
      if i > 0 {
        assert all[i] == order[i - 1];
      }
    }
  }

  // ---- whole macro inputs ----

  // What an input parses to when its format string and arguments are well-formed.
  function Format(input: Tokens): string
    requires input != [] && IsStringLiteral(input[0])
  {
    input[0].text[1..|input[0].text| - 1]
  }

  predicate Accepted(input: Tokens) {
    && input != [] && IsStringLiteral(input[0])
    && BuildKvs(input[1..]).Ok? && Scan.Scan(Format(input), [], []).Ok?
    && Resolves(Scan.Scan(Format(input), [], []).value, BuildKvs(input[1..]).value)
  }

  // For every input: code is generated exactly when the format string is a literal, the
  // arguments and placeholders are well-formed and every key is given; and then running
  // it writes and evaluates what the format string means.
  lemma LformatMeans<V>(input: Tokens, eval: Eval<V>)
    ensures Lformat(input).Ok? <==> Accepted(input)
    ensures Accepted(input) ==>
      (var segments, kvs := Scan.Scan(Format(input), [], []).value, BuildKvs(input[1..]).value;
       var m := ExecAll(Machine([], [], map[]), Lformat(input).value.program, eval);
       && m.Some? && Same(m.value, Intended(segments, kvs, eval))
       && Within(Order(segments, kvs), |kvs|) && m.value.history == Values(kvs, Order(segments, kvs)))
  {
    if input != [] && IsStringLiteral(input[0]) && BuildKvs(input[1..]).Ok? && Scan.Scan(Format(input), [], []).Ok? {
      var segments, kvs := Scan.Scan(Format(input), [], []).value, BuildKvs(input[1..]).value;
      KeysOfArguments(input[1..]);
      Missing(segments, kvs, Occurrences(segments, kvs), {});
      if Resolves(segments, kvs) {
        ProgramMeans(segments, kvs, eval);
        EvaluatedOnce(segments, kvs, eval);
      }
    }
  }

  lemma KeysOfArguments(input: Tokens)
    requires BuildKvs(input).Ok?
    ensures KeysDistinct(BuildKvs(input).value)
  {
    if input != [] {
      AcceptedKeysAreDistinct(input[1..], []);
    }
  }
}
