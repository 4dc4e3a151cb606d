// What the generated code writes, segment by segment and field by field, and what each
// error says of the input.

module LformatOutput {
  import opened Basics
  import opened LformatArgs
  import opened LformatCode
  import Scan = LformatScan

  // ---- the value of an argument ----

  // The value of argument `i` is worked out at its place in the evaluation order, from
  // what was evaluated before it.
  predicate IsValueOf<V(==)>(v: V, kvs: seq<Pair>, order: seq<nat>, eval: Eval<V>, k: nat)
    requires Within(order, |kvs|) && k < |order|
  {
    v == eval(Values(kvs, order[..k]), kvs[order[k]].value)
  }

  ghost predicate ShowsArgument<V>(o: Out<V>, kvs: seq<Pair>, order: seq<nat>, eval: Eval<V>, i: nat)
    requires Within(order, |kvs|)
  {
    o.Shown? && exists k :: 0 <= k < |order| && order[k] == i && IsValueOf(o.value, kvs, order, eval, k)
  }

  // ---- what is written ----

  // The arguments no placeholder names, in call-site order.
  ghost predicate AreUnused(rest: seq<nat>, segments: seq<Scan.Segment>, kvs: seq<Pair>) {
    && Ascending(rest)
    && (forall i: nat :: i in rest <==> i < |kvs| && Scan.Placeholder(kvs[i].key) !in segments)
  }

  // One piece of output for each segment: a literal as it stands, a placeholder the value
  // of the argument it names.
  ghost predicate WritesSegment<V>(o: Out<V>, s: Scan.Segment, kvs: seq<Pair>, order: seq<nat>, eval: Eval<V>)
    requires Within(order, |kvs|)
  {
    match s
    case Literal(text) => o == Source(text)
    case Placeholder(key) => exists i :: 0 <= i < |kvs| && kvs[i].key == key && ShowsArgument(o, kvs, order, eval, i)
  }

  // Then ` key=` and the value for each unused argument.
  ghost predicate WritesFields<V>(output: seq<Out<V>>, kvs: seq<Pair>, rest: seq<nat>, order: seq<nat>, eval: Eval<V>)
    requires Within(order, |kvs|) && Within(rest, |kvs|)
  {
    && |output| == 2 * |rest|
    && forall k | 0 <= k < |rest| ::
         output[2 * k] == Text(" " + kvs[rest[k]].key + "=") && ShowsArgument(output[2 * k + 1], kvs, order, eval, rest[k])
  }

  ghost predicate WritesOut<V>(
      output: seq<Out<V>>, segments: seq<Scan.Segment>, kvs: seq<Pair>, rest: seq<nat>, order: seq<nat>, eval: Eval<V>)
    requires Within(order, |kvs|) && Within(rest, |kvs|)
  {
    && |output| >= |segments|
    && (forall n | 0 <= n < |segments| :: WritesSegment(output[n], segments[n], kvs, order, eval))
    && WritesFields(output[|segments|..], kvs, rest, order, eval)
  }

  // ---- values by argument ----

  // `val` gives every argument in `order` the value it has after `history`.
  ghost predicate Consistent<V>(val: map<nat, V>, kvs: seq<Pair>, history: seq<Tokens>, order: seq<nat>, eval: Eval<V>)
    requires Within(order, |kvs|)
  {
    forall k | 0 <= k < |order| ::
      order[k] in val && val[order[k]] == eval(history + Values(kvs, order[..k]), kvs[order[k]].value)
  }

  lemma ConsistentTail<V>(val: map<nat, V>, kvs: seq<Pair>, history: seq<Tokens>, i: nat, rest: seq<nat>, eval: Eval<V>)
    requires i < |kvs| && Within(rest, |kvs|) && Within([i] + rest, |kvs|)
    requires Consistent(val, kvs, history, [i] + rest, eval)
    ensures i in val && val[i] == eval(history, kvs[i].value)
    ensures Consistent(val, kvs, history + [kvs[i].value], rest, eval)
  {
    var all := [i] + rest;
    assert all[..0] == [] && history + Values(kvs, all[..0]) == history;
    assert all[0] == i;
    forall k | 0 <= k < |rest|
      ensures rest[k] in val
        && val[rest[k]] == eval(history + [kvs[i].value] + Values(kvs, rest[..k]), kvs[rest[k]].value)
    {
      assert all[k + 1] == rest[k];
      assert all[..k + 1] == [i] + rest[..k];
      assert ([i] + rest[..k])[1..] == rest[..k];
      ConsHistory(history, kvs[i].value, Values(kvs, rest[..k]));
    }
  }

  lemma ConsistentFront<V>(val: map<nat, V>, kvs: seq<Pair>, history: seq<Tokens>, x: seq<nat>, y: seq<nat>, eval: Eval<V>)
    requires Within(x, |kvs|) && Within(x + y, |kvs|) && Consistent(val, kvs, history, x + y, eval)
    ensures Consistent(val, kvs, history, x, eval)
  {
    forall k | 0 <= k < |x|
      ensures x[k] in val && val[x[k]] == eval(history + Values(kvs, x[..k]), kvs[x[k]].value)
    {
      assert (x + y)[k] == x[k] && (x + y)[..k] == x[..k];
    }
  }

  // What has been evaluated before the `k`th of `y`, when `x` came first.
  lemma HistoryBoth(kvs: seq<Pair>, history: seq<Tokens>, x: seq<nat>, y: seq<nat>, k: nat)
    requires Within(x, |kvs|) && Within(y, |kvs|) && k < |y|
    ensures (x + y)[|x| + k] == y[k] && Within((x + y)[..|x| + k], |kvs|)
    ensures history + Values(kvs, (x + y)[..|x| + k]) == history + Values(kvs, x) + Values(kvs, y[..k])
  {
    assert (x + y)[..|x| + k] == x + y[..k];
    ValuesBoth(kvs, x, y[..k]);
    assert history + (Values(kvs, x) + Values(kvs, y[..k])) == history + Values(kvs, x) + Values(kvs, y[..k]);
  }

  lemma ConsistentBack<V>(val: map<nat, V>, kvs: seq<Pair>, history: seq<Tokens>, x: seq<nat>, y: seq<nat>, eval: Eval<V>)
    requires Within(x, |kvs|) && Within(y, |kvs|) && Within(x + y, |kvs|) && Consistent(val, kvs, history, x + y, eval)
    ensures Consistent(val, kvs, history + Values(kvs, x), y, eval)
  {
    forall k | 0 <= k < |y|
      ensures y[k] in val && val[y[k]] == eval(history + Values(kvs, x) + Values(kvs, y[..k]), kvs[y[k]].value)
    {
      HistoryBoth(kvs, history, x, y, k);
    }
  }

  function IndexOf(order: seq<nat>, i: nat): (k: nat)
    requires i in order
    ensures k < |order| && order[k] == i
  {
    if order[0] == i then 0 else 1 + IndexOf(order[1..], i)
  }

  function ValuesAlong<V>(kvs: seq<Pair>, order: seq<nat>, eval: Eval<V>): map<nat, V>
    requires Within(order, |kvs|)
  {
    map i | i in order :: eval(Values(kvs, order[..IndexOf(order, i)]), kvs[i].value)
  }

  lemma ValuesAreConsistent<V>(kvs: seq<Pair>, order: seq<nat>, eval: Eval<V>)
    requires Within(order, |kvs|) && NoRepeats(order)
    ensures Consistent(ValuesAlong(kvs, order, eval), kvs, [], order, eval)
  {
    forall k | 0 <= k < |order|
      ensures order[k] in ValuesAlong(kvs, order, eval)
      ensures ValuesAlong(kvs, order, eval)[order[k]] == eval([] + Values(kvs, order[..k]), kvs[order[k]].value)
    {
      assert order[k] in order;
      assert IndexOf(order, order[k]) == k;
      assert [] + Values(kvs, order[..k]) == Values(kvs, order[..k]);
    }
  }

  // ---- the pieces, by value ----

  ghost predicate Holds<V>(o: Out<V>, val: map<nat, V>, i: nat) {
    i in val && o == Shown(val[i])
  }

  ghost predicate IsPieceOf<V>(o: Out<V>, s: Scan.Segment, kvs: seq<Pair>, val: map<nat, V>) {
    match s
    case Literal(text) => o == Source(text)
    case Placeholder(key) => exists i :: 0 <= i < |kvs| && kvs[i].key == key && Holds(o, val, i)
  }

  ghost predicate PiecesOf<V>(after: seq<Out<V>>, before: seq<Out<V>>, segments: seq<Scan.Segment>, kvs: seq<Pair>, val: map<nat, V>) {
    && |after| == |before| + |segments| && before <= after
    && forall n | 0 <= n < |segments| :: IsPieceOf(after[|before| + n], segments[n], kvs, val)
  }

  lemma PiecesCons<V>(
      after: seq<Out<V>>, before: seq<Out<V>>, piece: Out<V>, segments: seq<Scan.Segment>, kvs: seq<Pair>, val: map<nat, V>)
    requires segments != [] && IsPieceOf(piece, segments[0], kvs, val)
    requires PiecesOf(after, before + [piece], segments[1..], kvs, val)
    ensures PiecesOf(after, before, segments, kvs, val)
  {
    assert after[|before|] == (before + [piece])[|before|];
    forall n | 0 <= n < |segments| ensures IsPieceOf(after[|before| + n], segments[n], kvs, val) {
      if n > 0 {
        assert segments[1..][n - 1] == segments[n];
        assert IsPieceOf(after[|before + [piece]| + (n - 1)], segments[1..][n - 1], kvs, val);
      }
    }
  }

  ghost predicate Knows<V>(memo: map<string, V>, kvs: seq<Pair>, val: map<nat, V>) {
    forall key | key in memo :: Position(kvs, key).Some? && Holds(Shown(memo[key]), val, Position(kvs, key).value)
  }

  lemma {:induction false} MeaningPieces<V>(
      segments: seq<Scan.Segment>, kvs: seq<Pair>, eval: Eval<V>, memo: map<string, V>, t: Trace<V>, val: map<nat, V>)
    requires Resolves(segments, kvs) && KeysDistinct(kvs) && Knows(memo, kvs, val)
    requires Within(FirstUses(segments, kvs, memo.Keys), |kvs|)
    requires Consistent(val, kvs, t.history, FirstUses(segments, kvs, memo.Keys), eval)
    ensures PiecesOf(Meaning(segments, kvs, eval, memo, t).output, t.output, segments, kvs, val)
    decreases |segments|
  {
    if segments != [] {
      match segments[0]
      case Literal(text) =>
        MeaningPieces(segments[1..], kvs, eval, memo, t.(output := t.output + [Source(text)]), val);
        PiecesCons(Meaning(segments, kvs, eval, memo, t).output, t.output, Source(text), segments, kvs, val);
      case Placeholder(key) =>
        var i := Position(kvs, key).value;
        if key in memo {
          MeaningPieces(segments[1..], kvs, eval, memo, t.(output := t.output + [Shown(memo[key])]), val);
          assert IsPieceOf(Shown(memo[key]), segments[0], kvs, val);
          PiecesCons(Meaning(segments, kvs, eval, memo, t).output, t.output, Shown(memo[key]), segments, kvs, val);
        } else {
          NewPiece(segments, kvs, eval, memo, t, val, key, i);
          var v := eval(t.history, kvs[i].value);
          MeaningPieces(segments[1..], kvs, eval, memo[key := v], Trace(t.output + [Shown(v)], t.history + [kvs[i].value]), val);
          PiecesCons(Meaning(segments, kvs, eval, memo, t).output, t.output, Shown(v), segments, kvs, val);
        }
    }
  }

  lemma NewPiece<V>(
      segments: seq<Scan.Segment>, kvs: seq<Pair>, eval: Eval<V>, memo: map<string, V>, t: Trace<V>, val: map<nat, V>,
      key: string, i: nat)
    requires Resolves(segments, kvs) && KeysDistinct(kvs) && Knows(memo, kvs, val)
    requires segments != [] && segments[0] == Scan.Placeholder(key) && key !in memo && Position(kvs, key) == Some(i)
    requires Within(FirstUses(segments, kvs, memo.Keys), |kvs|)
    requires Consistent(val, kvs, t.history, FirstUses(segments, kvs, memo.Keys), eval)
    ensures var v := eval(t.history, kvs[i].value);
      && IsPieceOf(Shown(v), segments[0], kvs, val) && Knows(memo[key := v], kvs, val)
      && Within(FirstUses(segments[1..], kvs, memo[key := v].Keys), |kvs|)
      && Consistent(val, kvs, t.history + [kvs[i].value], FirstUses(segments[1..], kvs, memo[key := v].Keys), eval)
  {
    var v := eval(t.history, kvs[i].value);
    assert memo[key := v].Keys == memo.Keys + {key};
    var rest := FirstUses(segments[1..], kvs, memo.Keys + {key});
    FirstUsesAreNew(segments[1..], kvs, memo.Keys + {key});
    ConsistentTail(val, kvs, t.history, i, rest, eval);
    assert Holds(Shown(v), val, i);
  }

  ghost predicate FieldsOf<V>(after: seq<Out<V>>, before: seq<Out<V>>, kvs: seq<Pair>, rest: seq<nat>, val: map<nat, V>)
    requires Within(rest, |kvs|)
  {
    && |after| == |before| + 2 * |rest| && before <= after
    && forall k | 0 <= k < |rest| ::
         after[|before| + 2 * k] == Text(" " + kvs[rest[k]].key + "=") && Holds(after[|before| + 2 * k + 1], val, rest[k])
  }

  lemma FieldsCons<V>(
      after: seq<Out<V>>, before: seq<Out<V>>, kvs: seq<Pair>, i: nat, v: V, rest: seq<nat>, val: map<nat, V>)
    requires i < |kvs| && Within(rest, |kvs|) && Within([i] + rest, |kvs|) && Holds(Shown(v), val, i)
    requires FieldsOf(after, before + [Text(" " + kvs[i].key + "="), Shown(v)], kvs, rest, val)
    ensures FieldsOf(after, before, kvs, [i] + rest, val)
  {
    var all, more := [i] + rest, before + [Text(" " + kvs[i].key + "="), Shown(v)];
    assert after[|before|] == more[|before|] && after[|before| + 1] == more[|before| + 1];
    forall k | 0 <= k < |all|
      ensures after[|before| + 2 * k] == Text(" " + kvs[all[k]].key + "=") && Holds(after[|before| + 2 * k + 1], val, all[k])
    {
      if k > 0 {
        assert all[k] == rest[k - 1];
        assert |before| + 2 * k == |more| + 2 * (k - 1);
      }
    }
  }

  lemma {:induction false} FieldsPieces<V>(
      kvs: seq<Pair>, used: set<string>, from: nat, eval: Eval<V>, t: Trace<V>, val: map<nat, V>)
    requires from <= |kvs| && Within(Leftover(kvs, used, from), |kvs|)
    requires Consistent(val, kvs, t.history, Leftover(kvs, used, from), eval)
    ensures FieldsOf(Fields(kvs[from..], used, eval, t).output, t.output, kvs, Leftover(kvs, used, from), val)
    decreases |kvs| - from
  {
    if from < |kvs| {
      assert kvs[from..][0] == kvs[from] && kvs[from..][1..] == kvs[from + 1..];
      var rest := Leftover(kvs, used, from + 1);
      LeftoverIsTheRest(kvs, used, from + 1);
      if kvs[from].key in used {
        assert [] + rest == rest;
        FieldsPieces(kvs, used, from + 1, eval, t, val);
      } else {
        var v := eval(t.history, kvs[from].value);
        ConsistentTail(val, kvs, t.history, from, rest, eval);
        FieldsPieces(kvs, used, from + 1, eval,
                     Trace(t.output + [Text(FieldText(kvs[from].key)), Shown(v)], t.history + [kvs[from].value]), val);
        FieldsCons(Fields(kvs[from..], used, eval, t).output, t.output, kvs, from, v, rest, val);
      }
    }
  }

  // ---- put together ----

  lemma HoldsShows<V>(o: Out<V>, kvs: seq<Pair>, order: seq<nat>, eval: Eval<V>, i: nat)
    requires Within(order, |kvs|) && Holds(o, ValuesAlong(kvs, order, eval), i)
    ensures ShowsArgument(o, kvs, order, eval, i)
  {
    var k := IndexOf(order, i);
    assert IsValueOf(o.value, kvs, order, eval, k);
  }

  lemma PieceWrites<V>(o: Out<V>, s: Scan.Segment, kvs: seq<Pair>, order: seq<nat>, eval: Eval<V>)
    requires Within(order, |kvs|) && IsPieceOf(o, s, kvs, ValuesAlong(kvs, order, eval))
    ensures WritesSegment(o, s, kvs, order, eval)
  {
    if s.Placeholder? {
      var i :| 0 <= i < |kvs| && kvs[i].key == s.key && Holds(o, ValuesAlong(kvs, order, eval), i);
      HoldsShows(o, kvs, order, eval, i);
    }
  }

  predicate Ascending(rest: seq<nat>) {
    forall i, j | 0 <= i < j < |rest| :: rest[i] < rest[j]
  }

  lemma AscendsFrom(first: nat, tail: seq<nat>)
    requires Ascending(tail) && forall i | i in tail :: first < i
    ensures Ascending([first] + tail)
  {
    var rest := [first] + tail;
    forall i, j | 0 <= i < j < |rest| ensures rest[i] < rest[j] {
      assert rest[j] == tail[j - 1] && tail[j - 1] in tail;
    }
  }

  lemma {:induction false} LeftoverAscends(kvs: seq<Pair>, used: set<string>, from: nat)
    requires from <= |kvs|
    ensures Ascending(Leftover(kvs, used, from))
    decreases |kvs| - from
  {
    if from < |kvs| {
      var tail := Leftover(kvs, used, from + 1);
      LeftoverAscends(kvs, used, from + 1);
      LeftoverIsTheRest(kvs, used, from + 1);
      if kvs[from].key in used {
        assert Leftover(kvs, used, from) == [] + tail == tail;
      } else {
        AscendsFrom(from, tail);
        assert Leftover(kvs, used, from) == [from] + tail;
      }
    }
  }

  lemma LeftoverIsUnused(segments: seq<Scan.Segment>, kvs: seq<Pair>)
    ensures Within(Leftover(kvs, UsedKeys(segments), 0), |kvs|)
    ensures AreUnused(Leftover(kvs, UsedKeys(segments), 0), segments, kvs)
  {
    LeftoverIsTheRest(kvs, UsedKeys(segments), 0);
    LeftoverAscends(kvs, UsedKeys(segments), 0);
    forall key: string ensures key in UsedKeys(segments) <==> Scan.Placeholder(key) in segments {
      if Scan.Placeholder(key) in segments {
        assert Scan.Placeholder(key).key in UsedKeys(segments);
      }
    }
  }

  // The output and the history once the last segment is written.
  function Middle<V>(segments: seq<Scan.Segment>, kvs: seq<Pair>, eval: Eval<V>): Trace<V>
    requires Resolves(segments, kvs)
  {
    Meaning(segments, kvs, eval, map[], Trace([], []))
  }

  lemma MiddlePieces<V>(segments: seq<Scan.Segment>, kvs: seq<Pair>, eval: Eval<V>, val: map<nat, V>)
    requires Resolves(segments, kvs) && KeysDistinct(kvs) && Within(FirstUses(segments, kvs, {}), |kvs|)
    requires Consistent(val, kvs, [], FirstUses(segments, kvs, {}), eval)
    ensures PiecesOf(Middle(segments, kvs, eval).output, [], segments, kvs, val)
    ensures Middle(segments, kvs, eval).history == [] + Values(kvs, FirstUses(segments, kvs, {}))
  {
    var none: map<string, V> := map[];
    assert none.Keys == {};
    MeaningPieces(segments, kvs, eval, none, Trace([], []), val);
    MeaningHistory(segments, kvs, eval, none, Trace([], []));
  }

  lemma EndPieces<V>(kvs: seq<Pair>, used: set<string>, eval: Eval<V>, t: Trace<V>, val: map<nat, V>)
    requires Within(Leftover(kvs, used, 0), |kvs|) && Consistent(val, kvs, t.history, Leftover(kvs, used, 0), eval)
    ensures FieldsOf(Fields(kvs, used, eval, t).output, t.output, kvs, Leftover(kvs, used, 0), val)
  {
    FieldsPieces(kvs, used, 0, eval, t, val);
    assert kvs[0..] == kvs;
  }

  lemma IntendedPieces<V>(segments: seq<Scan.Segment>, kvs: seq<Pair>, eval: Eval<V>)
    requires Resolves(segments, kvs) && KeysDistinct(kvs) && Within(Order(segments, kvs), |kvs|)
    requires Within(Leftover(kvs, UsedKeys(segments), 0), |kvs|)
    ensures var val := ValuesAlong(kvs, Order(segments, kvs), eval);
      && PiecesOf(Middle(segments, kvs, eval).output, [], segments, kvs, val)
      && FieldsOf(Intended(segments, kvs, eval).output, Middle(segments, kvs, eval).output, kvs,
                  Leftover(kvs, UsedKeys(segments), 0), val)
  {
    var x, y := FirstUses(segments, kvs, {}), Leftover(kvs, UsedKeys(segments), 0);
    var val := ValuesAlong(kvs, Order(segments, kvs), eval);
    FirstUsesAreNew(segments, kvs, {});
    OrderIsPermutation(segments, kvs);
    ValuesAreConsistent(kvs, Order(segments, kvs), eval);
    ConsistentFront(val, kvs, [], x, y, eval);
    ConsistentBack(val, kvs, [], x, y, eval);
    MiddlePieces(segments, kvs, eval, val);
    EndPieces(kvs, UsedKeys(segments), eval, Middle(segments, kvs, eval), val);
  }

  lemma PiecesWrite<V>(
      output: seq<Out<V>>, middle: seq<Out<V>>, segments: seq<Scan.Segment>, kvs: seq<Pair>, rest: seq<nat>, order: seq<nat>,
      eval: Eval<V>)
    requires Within(order, |kvs|) && Within(rest, |kvs|)
    requires PiecesOf(middle, [], segments, kvs, ValuesAlong(kvs, order, eval))
    requires FieldsOf(output, middle, kvs, rest, ValuesAlong(kvs, order, eval))
    ensures WritesOut(output, segments, kvs, rest, order, eval)
  {
    var val := ValuesAlong(kvs, order, eval);
    forall n | 0 <= n < |segments| ensures WritesSegment(output[n], segments[n], kvs, order, eval) {
      assert IsPieceOf(middle[0 + n], segments[n], kvs, val);
      assert output[n] == middle[n];
      PieceWrites(output[n], segments[n], kvs, order, eval);
    }
    var fields := output[|segments|..];
    forall k | 0 <= k < |rest|
      ensures fields[2 * k] == Text(" " + kvs[rest[k]].key + "=")
      ensures ShowsArgument(fields[2 * k + 1], kvs, order, eval, rest[k])
    {
      assert fields[2 * k] == output[|middle| + 2 * k] && fields[2 * k + 1] == output[|middle| + 2 * k + 1];
      HoldsShows(fields[2 * k + 1], kvs, order, eval, rest[k]);
    }
  }

  // For every accepted input the code writes, segment by segment, the literals and the
  // values of the named arguments, and then ` key=` and the value of each argument that
  // is not named, in call-site order; a value is what its expression gave at its one
  // place in the evaluation order.
  lemma WritesAsIntended<V>(input: Tokens, eval: Eval<V>)
    ensures Accepted(input) ==> Lformat(input).Ok?
    ensures Accepted(input) ==>
      (var segments, kvs := Scan.Scan(Format(input), [], []).value, BuildKvs(input[1..]).value;
       var m := ExecAll(Machine([], [], map[]), Lformat(input).value.program, eval);
       var order, rest := Order(segments, kvs), Leftover(kvs, UsedKeys(segments), 0);
       && m.Some? && Within(order, |kvs|) && Within(rest, |kvs|) && AreUnused(rest, segments, kvs)
       && WritesOut(m.value.output, segments, kvs, rest, order, eval))
  {
    if Accepted(input) {
      var segments, kvs := Scan.Scan(Format(input), [], []).value, BuildKvs(input[1..]).value;
      LformatMeans(input, eval);
      KeysOfArguments(input[1..]);
      LeftoverIsUnused(segments, kvs);
      IntendedPieces(segments, kvs, eval);
      var order, rest := Order(segments, kvs), Leftover(kvs, UsedKeys(segments), 0);
      var output, middle := Intended(segments, kvs, eval).output, Middle(segments, kvs, eval).output;
      PiecesWrite(output, middle, segments, kvs, rest, order, eval);
    }
  }

  // ---- what is rejected, and how ----

  // A token that spells a string between double quotes.
  ghost predicate IsQuoted(t: Token, body: string) {
    t == LformatArgs.Literal("\"" + body + "\"")
  }

  lemma QuotedIsLiteral(t: Token)
    ensures IsStringLiteral(t) <==> exists body :: IsQuoted(t, body)
    ensures IsStringLiteral(t) ==> IsQuoted(t, t.text[1..|t.text| - 1])
  {
    if IsStringLiteral(t) {
      var body := t.text[1..|t.text| - 1];
      assert t.text == "\"" + body + "\"";
      assert IsQuoted(t, body);
    }
    if body :| IsQuoted(t, body) {
      var text := "\"" + body + "\"";
      assert t.text == text && text[0] == '"' && text[|text| - 1] == '"';
    }
  }

  // The first placeholder that no argument answers.
  predicate IsFirstMissing(segments: seq<Scan.Segment>, kvs: seq<Pair>, n: nat, key: string) {
    && n < |segments| && segments[n] == Scan.Placeholder(key) && !HasKey(kvs, key)
    && forall m | 0 <= m < n && segments[m].Placeholder? :: HasKey(kvs, segments[m].key)
  }

  lemma {:induction false} FirstMissing(
      segments: seq<Scan.Segment>, kvs: seq<Pair>, occurrences: seq<nat>, bound: set<nat>) returns (n: nat)
    requires |occurrences| == |kvs| && Interpolate(segments, kvs, occurrences, bound).Err?
    ensures Interpolate(segments, kvs, occurrences, bound).error.KeyNotFound?
    ensures IsFirstMissing(segments, kvs, n, Interpolate(segments, kvs, occurrences, bound).error.key)
    decreases |segments|
  {
    if segments[0].Placeholder? && Position(kvs, segments[0].key).None? {
      n := 0;
    } else {
      var next := if segments[0].Literal? then bound
        else var i := Position(kvs, segments[0].key).value; if occurrences[i] > 1 then bound + {i} else bound;
      var rest := FirstMissing(segments[1..], kvs, occurrences, next);
      n := rest + 1;
      forall m | 0 <= m < n && segments[m].Placeholder? ensures HasKey(kvs, segments[m].key) {
        if m > 0 {
          assert segments[m] == segments[1..][m - 1];
        }
      }
    }
  }

  ghost predicate MissesFirst(segments: seq<Scan.Segment>, kvs: seq<Pair>, key: string) {
    exists n :: IsFirstMissing(segments, kvs, n, key)
  }

  // Which of the four things is wrong, in the order they are looked at: the format is not
  // a quoted literal, the arguments do not parse, the format does not scan, or its first
  // unanswered placeholder.
  ghost predicate Blames(input: Tokens, e: LformatError) {
    if input == [] || !exists body :: IsQuoted(input[0], body) then e == NotAStringLiteral
    else if BuildKvs(input[1..]).Err? then e == BadArguments(BuildKvs(input[1..]).error)
    else
      var body :| IsQuoted(input[0], body);
      if Scan.Scan(body, [], []).Err? then e == BadFormatString
      else e.KeyNotFound? && MissesFirst(Scan.Scan(body, [], []).value, BuildKvs(input[1..]).value, e.key)
  }

  lemma ErrorIsBlamed(input: Tokens)
    ensures Lformat(input).Err? ==> Blames(input, Lformat(input).error)
    ensures Lformat(input).Ok? ==> input != [] && IsQuoted(input[0], Lformat(input).value.name)
  {
    if input != [] {
      QuotedIsLiteral(input[0]);
      if IsStringLiteral(input[0]) && BuildKvs(input[1..]).Ok? && Scan.Scan(Format(input), [], []).Ok? {
        var segments, kvs := Scan.Scan(Format(input), [], []).value, BuildKvs(input[1..]).value;
        QuotedOnce(input[0], Format(input));
        if Interpolate(segments, kvs, Occurrences(segments, kvs), {}).Err? {
          var n := FirstMissing(segments, kvs, Occurrences(segments, kvs), {});
        }
      }
    }
  }

  lemma QuotedOnce(t: Token, body: string)
    requires IsQuoted(t, body)
    ensures forall other :: IsQuoted(t, other) ==> other == body
  {
    forall other | IsQuoted(t, other) ensures other == body {
      var text := "\"" + other + "\"";
      assert text[1..|text| - 1] == other;
      assert ("\"" + body + "\"")[1..|text| - 1] == body;
    }
  }
}
