// The tracing bridge's per-thread stack of entered spans. Each entry is a guard that
// restores the context that was current when it was created, so the stack only comes
// apart from the top; an exit out of order unwinds to its span and rebuilds the rest.

module TracingBridge {
  import opened Basics
  import opened Facade

  // A guard: the span it belongs to and the context it will restore.
  datatype Entry = Entry(id: u64, previous: ContextToken)

  // What an entry stands for: a span and the context it entered.
  datatype EnteredSpan = EnteredSpan(id: u64, context: ContextToken)

  // The span states the subscriber can look up.
  type Registry = map<u64, ContextToken>

  // The top span's context is current, and its guard restores what was current below it;
  // with no span entered the base is.
  predicate Chained(entered: seq<Entry>, current: ContextToken, spans: seq<EnteredSpan>, base: ContextToken)
    decreases |spans|
  {
    if spans == [] then entered == [] && current == base
    else
      var n := |spans| - 1;
      && |entered| == n + 1 && entered[n].id == spans[n].id && current == spans[n].context
      && Chained(entered[..n], entered[n].previous, spans[..n], base)
  }

  lemma {:induction false} ChainedIds(entered: seq<Entry>, current: ContextToken, spans: seq<EnteredSpan>, base: ContextToken)
    requires Chained(entered, current, spans, base)
    ensures |entered| == |spans| && forall k | 0 <= k < |spans| :: entered[k].id == spans[k].id
    decreases |spans|
  {
    if spans != [] {
      var n := |spans| - 1;
      ChainedIds(entered[..n], entered[n].previous, spans[..n], base);
    }
  }

  // ---- what enter and exit mean ----

  function Entered(spans: seq<EnteredSpan>, id: u64, registry: Registry): seq<EnteredSpan> {
    if id in registry then spans + [EnteredSpan(id, registry[id])] else spans
  }

  function LastAt(spans: seq<EnteredSpan>, id: u64): (r: Option<nat>)
    ensures r.Some? ==> r.value < |spans| && spans[r.value].id == id
    ensures r.Some? ==> forall k | r.value < k < |spans| :: spans[k].id != id
    ensures r.None? ==> forall k | 0 <= k < |spans| :: spans[k].id != id
  {
    if spans == [] then None
    else if spans[|spans| - 1].id == id then Some(|spans| - 1)
    else LastAt(spans[..|spans| - 1], id)
  }

  // The topmost guard of a span, if it has one.
  predicate IsLast(entered: seq<Entry>, id: u64, at: Option<nat>) {
    match at
    case None => forall k | 0 <= k < |entered| :: entered[k].id != id
    case Some(n) => n < |entered| && entered[n].id == id && forall k | n < k < |entered| :: entered[k].id != id
  }

  lemma LastGuardIsLastSpan(entered: seq<Entry>, spans: seq<EnteredSpan>, id: u64, at: Option<nat>)
    requires |entered| == |spans| && forall k | 0 <= k < |spans| :: entered[k].id == spans[k].id
    requires IsLast(entered, id, at)
    ensures at == LastAt(spans, id)
  {
  }

  // Spans entered again under what the registry says now; unknown ones are left out.
  function Reentered(spans: seq<EnteredSpan>, registry: Registry): seq<EnteredSpan> {
    if spans == [] then []
    else Entered(Reentered(spans[..|spans| - 1], registry), spans[|spans| - 1].id, registry)
  }

  function Exited(spans: seq<EnteredSpan>, id: u64, registry: Registry): seq<EnteredSpan> {
    var at := LastAt(spans, id);
    if at.None? then spans else spans[..at.value] + Reentered(spans[at.value + 1..], registry)
  }

  lemma ReenterOne(kept: seq<EnteredSpan>, tail: seq<EnteredSpan>, done: nat, registry: Registry)
    requires done < |tail|
    ensures kept + Reentered(tail[..done + 1], registry)
      == Entered(kept + Reentered(tail[..done], registry), tail[done].id, registry)
  {
    assert tail[..done + 1][..done] == tail[..done];
    var part := Reentered(tail[..done], registry);
    if tail[done].id in registry {
      var span := EnteredSpan(tail[done].id, registry[tail[done].id]);
      assert kept + (part + [span]) == kept + part + [span];
    }
  }

  function KnownIn(registry: Registry): EnteredSpan -> bool {
    (span: EnteredSpan) => span.id in registry
  }

  // The spans the registry knows, in order, under the contexts it has for them now.
  predicate AreReentered(spans: seq<EnteredSpan>, above: seq<EnteredSpan>, registry: Registry) {
    var known := Sift(above, KnownIn(registry));
    && |spans| == |known|
    && forall k :: 0 <= k < |known| ==>
         known[k].id in registry && spans[k].id == known[k].id && spans[k].context == registry[known[k].id]
  }

  // The exited span is the last one with its id; those below it stay, those above it are
  // entered again as far as they are known. A span that is not there changes nothing.
  ghost predicate Exits(was: seq<EnteredSpan>, id: u64, registry: Registry, now: seq<EnteredSpan>) {
    || (now == was && forall k :: 0 <= k < |was| ==> was[k].id != id)
    || exists p :: 0 <= p < |was| && IsLastOf(was, id, p) && p <= |now| && now[..p] == was[..p]
         && AreReentered(now[p..], was[p + 1..], registry)
  }

  predicate IsLastOf(spans: seq<EnteredSpan>, id: u64, p: nat) {
    p < |spans| && spans[p].id == id && forall k :: p < k < |spans| ==> spans[k].id != id
  }

  lemma {:induction false} ReenteredMeans(above: seq<EnteredSpan>, registry: Registry)
    ensures AreReentered(Reentered(above, registry), above, registry)
  {
    if above != [] {
      ReenteredMeans(above[..|above| - 1], registry);
    }
  }

  lemma ExitMeans(spans: seq<EnteredSpan>, id: u64, registry: Registry)
    ensures Exits(spans, id, registry, Exited(spans, id, registry))
  {
    var at := LastAt(spans, id);
    if at.Some? {
      var p := at.value;
      var above := Reentered(spans[p + 1..], registry);
      ReenteredMeans(spans[p + 1..], registry);
      assert IsLastOf(spans, id, p);
      assert (spans[..p] + above)[..p] == spans[..p] && (spans[..p] + above)[p..] == above;
    }
  }

  // The ids of the topmost `n` spans, top first.
  function IdsDown(spans: seq<EnteredSpan>, n: nat): (ids: seq<u64>)
    requires n <= |spans|
    ensures |ids| == n && forall k | 0 <= k < n :: ids[k] == spans[|spans| - 1 - k].id
  {
    seq(n, k requires 0 <= k < n => spans[|spans| - 1 - k].id)
  }

  lemma IdsGrow(spans: seq<EnteredSpan>, n: nat)
    requires n < |spans|
    ensures IdsDown(spans, n + 1) == IdsDown(spans, n) + [spans[|spans| - 1 - n].id]
  {
  }

  lemma IdsOfTail(spans: seq<EnteredSpan>, from: nat)
    requires from <= |spans|
    ensures IdsDown(spans, |spans| - from) == IdsDown(spans[from..], |spans| - from)
  {
  }

  // ---- the bridge ----

  class Bridge {
    var entered: seq<Entry>
    var current: ContextToken
    ghost var spans: seq<EnteredSpan>
    ghost const base: ContextToken

    ghost predicate Valid()
      reads this
    {
      Chained(entered, current, spans, base)
    }

    constructor (current: ContextToken)
      ensures Valid() && spans == [] && base == current && entered == []
    {
      entered, this.current, spans, base := [], current, [], current;
    }

    // `context::enter`, with the guard pushed.
    method Push(id: u64, context: ContextToken)
      requires Valid()
      modifies this
      ensures Valid() && spans == old(spans) + [EnteredSpan(id, context)]
    {
      ghost var was := spans;
      ChainedIds(entered, current, spans, base);
      assert (entered + [Entry(id, current)])[..|entered|] == entered;
      entered := entered + [Entry(id, current)];
      current := context;
      spans := spans + [EnteredSpan(id, context)];
      assert spans[..|was|] == was;
    }

    // Pops the top guard and drops it, which restores its context.
    method Pop() returns (id: u64)
      requires Valid() && spans != []
      modifies this
      ensures Valid() && spans == old(spans)[..|old(spans)| - 1] && id == old(spans)[|old(spans)| - 1].id
    {
      var guard := entered[|entered| - 1];
      entered := entered[..|entered| - 1];
      current := guard.previous;
      id := guard.id;
      spans := spans[..|spans| - 1];
    }

    // `bridging`: the event was raised by the bridge itself.
    method OnEnter(id: u64, registry: Registry, bridging: bool)
      requires Valid()
      modifies this
      ensures Valid() && spans == if bridging then old(spans) else Entered(old(spans), id, registry)
      ensures bridging || id !in registry ==> spans == old(spans)
      ensures !bridging && id in registry ==> spans == old(spans) + [EnteredSpan(id, registry[id])]
    {
      if bridging {
        return;
      }
      EnterKnown(id, registry);
    }

    // Pushes a guard for the span if its state is found.
    method EnterKnown(id: u64, registry: Registry)
      requires Valid()
      modifies this
      ensures Valid() && spans == Entered(old(spans), id, registry)
    {
      if id in registry {
        Push(id, registry[id]);
      }
    }

    // `rposition`: the topmost guard of this span.
    method LastPosition(id: u64) returns (at: Option<nat>)
      ensures IsLast(entered, id, at)
    {
      var n := |entered|;
      while n > 0 && entered[n - 1].id != id
        invariant 0 <= n <= |entered| && forall k | n <= k < |entered| :: entered[k].id != id
      {
        n := n - 1;
      }
      if n == 0 {
        return None;
      }
      return Some(n - 1);
    }

    // Takes down every guard above `position`, remembering whose they were, top first.
    method Unwind(position: nat) returns (above: seq<u64>)
      requires Valid() && position < |spans|
      modifies this
      ensures Valid() && spans == old(spans)[..position + 1]
      ensures |above| == |old(spans)| - position - 1
      ensures above == IdsDown(old(spans), |above|)
    {
      ghost var was := spans;
      above := [];
      while |entered| > position + 1
        invariant Valid() && position < |spans| <= |was| && spans == was[..|spans|]
        invariant |above| == |was| - |spans| && above == IdsDown(was, |above|)
        decreases |spans|
      {
        IdsGrow(was, |above|);
        var top := Pop();
        above := above + [top];
      }
    }

    // Enters the spans again, bottom first; `tail` is what was taken down.
    method Rebuild(above: seq<u64>, registry: Registry, ghost tail: seq<EnteredSpan>)
      requires Valid() && |above| == |tail|
      requires above == IdsDown(tail, |tail|)
      modifies this
      ensures Valid() && spans == old(spans) + Reentered(tail, registry)
    {
      ghost var kept := spans;
      var i := |above|;
      while i > 0
        invariant 0 <= i <= |above| && Valid()
        invariant spans == kept + Reentered(tail[..|tail| - i], registry)
      {
        ReenterOne(kept, tail, |tail| - i, registry);
        i := i - 1;
        EnterKnown(above[i], registry);
      }
      assert tail[..|tail|] == tail;
    }

    method OnExit(id: u64, registry: Registry, bridging: bool)
      requires Valid()
      modifies this
      ensures Valid() && spans == if bridging then old(spans) else Exited(old(spans), id, registry)
      ensures if bridging then spans == old(spans) else Exits(old(spans), id, registry, spans)
    {
      if !bridging {
        ghost var was := spans;
        TakeOut(id, registry);
        ExitMeans(was, id, registry);
      }
    }

    // Unwinds to the topmost guard of the span, drops it and enters the others again.
    method TakeOut(id: u64, registry: Registry)
      requires Valid()
      modifies this
      ensures Valid() && spans == Exited(old(spans), id, registry)
    {
      var at := LastPosition(id);
      ChainedIds(entered, current, spans, base);
      LastGuardIsLastSpan(entered, spans, id, at);
      if at.None? {
        return;
      }
      ghost var was, kept, tail := spans, spans[..at.value], spans[at.value + 1..];
      assert Exited(was, id, registry) == kept + Reentered(tail, registry);
      IdsOfTail(was, at.value + 1);
      var above := Unwind(at.value);
      assert spans[..at.value] == kept;
      var target := Pop();
      assert spans == kept;
      Rebuild(above, registry, tail);
    }
  }

  // ---- runs ----

  // Every entered span is one the registry still knows, by the context it was entered with.
  predicate Known(spans: seq<EnteredSpan>, registry: Registry) {
    forall k | 0 <= k < |spans| :: spans[k].id in registry && registry[spans[k].id] == spans[k].context
  }

  lemma {:induction false} ReenteredKnown(spans: seq<EnteredSpan>, registry: Registry)
    requires Known(spans, registry)
    ensures Reentered(spans, registry) == spans
  {
    if spans != [] {
      var n := |spans| - 1;
      ReenteredKnown(spans[..n], registry);
      assert spans[..n] + [spans[n]] == spans;
    }
  }

  // While lookups succeed, an exit deletes the last matching span and nothing else.
  lemma ExitDeletesOne(spans: seq<EnteredSpan>, id: u64, registry: Registry)
    requires Known(spans, registry) && LastAt(spans, id).Some?
    ensures var at := LastAt(spans, id).value;
      Exited(spans, id, registry) == spans[..at] + spans[at + 1..]
  {
    ReenteredKnown(spans[LastAt(spans, id).value + 1..], registry);
  }

  // Each event comes with what the subscriber could look up at that moment.
  datatype SpanEvent = Enter(id: u64, registry: Registry) | Exit(id: u64, registry: Registry)

  function After(events: seq<SpanEvent>): seq<EnteredSpan> {
    if events == [] then []
    else
      var spans, e := After(events[..|events| - 1]), events[|events| - 1];
      if e.Enter? then Entered(spans, e.id, e.registry) else Exited(spans, e.id, e.registry)
  }

  // How many times a span is entered and not yet exited.
  function Open(events: seq<SpanEvent>, id: u64): nat {
    if events == [] then 0
    else
      var n, e := Open(events[..|events| - 1], id), events[|events| - 1];
      if e.id != id then n
      else if e.Exit? then (if n > 0 then n - 1 else 0)
      else if id in e.registry then n + 1 else n
  }

  // The spans above the one that is exited, which the exit has to look up again.
  function Above(spans: seq<EnteredSpan>, id: u64): seq<EnteredSpan> {
    var at := LastAt(spans, id);
    if at.None? then [] else spans[at.value + 1..]
  }

  predicate Findable(spans: seq<EnteredSpan>, registry: Registry) {
    forall k | 0 <= k < |spans| :: spans[k].id in registry
  }

  // No exit fails to find a span it has to enter again.
  predicate LookupsSucceed(events: seq<SpanEvent>) {
    events == []
    || (var n := |events| - 1;
        && LookupsSucceed(events[..n])
        && (events[n].Exit? ==> Findable(Above(After(events[..n]), events[n].id), events[n].registry)))
  }

  function CountId(spans: seq<EnteredSpan>, id: u64): nat {
    if spans == [] then 0
    else CountId(spans[..|spans| - 1], id) + (if spans[|spans| - 1].id == id then 1 else 0)
  }

  lemma {:induction false} CountBoth(x: seq<EnteredSpan>, y: seq<EnteredSpan>, id: u64)
    ensures CountId(x + y, id) == CountId(x, id) + CountId(y, id)
    decreases |y|
  {
    if y == [] {
      assert x + y == x;
    } else {
      var n := |y| - 1;
      CountBoth(x, y[..n], id);
      assert (x + y)[..|x| + n] == x + y[..n];
    }
  }

  lemma {:induction false} CountPositive(spans: seq<EnteredSpan>, id: u64)
    ensures CountId(spans, id) > 0 <==> exists k :: 0 <= k < |spans| && spans[k].id == id
  {
    if spans != [] {
      CountPositive(spans[..|spans| - 1], id);
      if spans[|spans| - 1].id != id && CountId(spans, id) > 0 {
        var k :| 0 <= k < |spans| - 1 && spans[..|spans| - 1][k].id == id;
        assert spans[k].id == id;
      }
    }
  }

  lemma EntrySteps(spans: seq<EnteredSpan>, id: u64, registry: Registry, other: u64)
    ensures CountId(Entered(spans, id, registry), other)
      == CountId(spans, other) + (if id == other && id in registry then 1 else 0)
  {
    if id in registry {
      assert (spans + [EnteredSpan(id, registry[id])])[..|spans|] == spans;
    }
  }

  // Entering spans again loses exactly those the registry no longer knows.
  lemma {:induction false} ReenteredCount(spans: seq<EnteredSpan>, registry: Registry, id: u64)
    ensures CountId(Reentered(spans, registry), id) == if id in registry then CountId(spans, id) else 0
  {
    if spans != [] {
      var n := |spans| - 1;
      ReenteredCount(spans[..n], registry, id);
      EntrySteps(Reentered(spans[..n], registry), spans[n].id, registry, id);
    }
  }

  lemma ExitSteps(spans: seq<EnteredSpan>, id: u64, registry: Registry, other: u64)
    ensures CountId(Exited(spans, id, registry), other)
      == CountId(spans, other) - (if id == other && CountId(spans, other) > 0 then 1 else 0)
         - (if other in registry then 0 else CountId(Above(spans, id), other))
  {
    CountPositive(spans, other);
    var at := LastAt(spans, id);
    if at.Some? {
      var tail := spans[at.value + 1..];
      ReenteredCount(tail, registry, other);
      CountBoth(spans[..at.value], Reentered(tail, registry), other);
      CountBoth(spans[..at.value], tail, other);
      DeletedCount(spans, at.value, other);
    } else {
      assert CountId([], other) == 0;
    }
  }

  lemma FindableCount(spans: seq<EnteredSpan>, registry: Registry, id: u64)
    requires Findable(spans, registry) && id !in registry
    ensures CountId(spans, id) == 0
  {
    CountPositive(spans, id);
  }

  // Whatever the order of exits, the stack holds no span more often than it is open; and
  // exactly as often, as long as every exit finds the spans it has to enter again.
  lemma {:induction false} StackCountsOpen(events: seq<SpanEvent>, id: u64)
    ensures CountId(After(events), id) <= Open(events, id)
    ensures LookupsSucceed(events) ==> CountId(After(events), id) == Open(events, id)
  {
    if events != [] {
      var n := |events| - 1;
      var spans, e := After(events[..n]), events[n];
      StackCountsOpen(events[..n], id);
      if e.Enter? {
        EntrySteps(spans, e.id, e.registry, id);
      } else {
        ExitSteps(spans, e.id, e.registry, id);
        if LookupsSucceed(events) && id !in e.registry {
          FindableCount(Above(spans, e.id), e.registry, id);
        }
      }
    }
  }

  lemma DeletedCount(spans: seq<EnteredSpan>, at: nat, id: u64)
    requires at < |spans|
    ensures CountId(spans[..at] + spans[at + 1..], id) + (if spans[at].id == id then 1 else 0) == CountId(spans, id)
  {
    var one := [spans[at]];
    assert spans == spans[..at] + one + spans[at + 1..];
    CountBoth(spans[..at] + one, spans[at + 1..], id);
    CountBoth(spans[..at], one, id);
    CountBoth(spans[..at], spans[at + 1..], id);
    assert one[..0] == [] && CountId(one[..0], id) == 0;
  }

  // When every enter has been matched by an exit, in whatever order and whatever the
  // lookups found, the stack is empty and the context that was current before the first
  // enter is current again.
  lemma BaseIsRestored(events: seq<SpanEvent>, entered: seq<Entry>, current: ContextToken, base: ContextToken)
    requires Chained(entered, current, After(events), base)
    requires forall id :: Open(events, id) == 0
    ensures entered == [] && current == base
  {
    var spans := After(events);
    if spans != [] {
      StackCountsOpen(events, spans[0].id);
      CountPositive(spans, spans[0].id);
      assert false;
    }
  }
}
