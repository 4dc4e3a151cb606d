// Causal contexts: how tokens are minted and linked, and when one descends from
// another.

module Lineage {
  import opened Basics
  import opened Utf8
  import opened Facade

  datatype ContextSnapshot = ContextSnapshot(
    token: ContextToken,
    name: Text,
    parent: Option<ContextToken>,
    links: seq<ContextToken>)

  type Contexts = map<nat, ContextSnapshot>

  const LAST_ID: nat := 0xFFFF_FFFF_FFFF_FFFF

  // What minting guarantees: a parent is a stored context with a smaller id.
  ghost predicate WellFormed(contexts: Contexts) {
    forall id :: id in contexts && contexts[id].parent.Some? ==>
      var parent := contexts[id].parent.value;
      !parent.IsNone() && parent.id < id && parent.id in contexts
  }

  function Descends(contexts: Contexts, candidate: ContextToken, ancestor: ContextToken): bool
    requires WellFormed(contexts)
    decreases candidate.id
  {
    if candidate.IsNone() then false
    else if candidate == ancestor then true
    else if candidate.id !in contexts || contexts[candidate.id].parent.None? then false
    else Descends(contexts, contexts[candidate.id].parent.value, ancestor)
  }

  // ---- the reference: a chain of parents ----

  predicate IsParent(contexts: Contexts, child: ContextToken, parent: ContextToken) {
    child.id in contexts && contexts[child.id].parent == Some(parent)
  }

  predicate IsPath(contexts: Contexts, path: seq<ContextToken>) {
    && path != []
    && (forall i :: 0 <= i < |path| ==> !path[i].IsNone())
    && (forall i :: 0 <= i < |path| - 1 ==> IsParent(contexts, path[i], path[i + 1]))
  }

  ghost predicate Connected(contexts: Contexts, candidate: ContextToken, ancestor: ContextToken) {
    exists path :: IsPath(contexts, path) && path[0] == candidate && path[|path| - 1] == ancestor
  }

  lemma {:induction false} PathDescends(contexts: Contexts, path: seq<ContextToken>)
    requires WellFormed(contexts) && IsPath(contexts, path)
    ensures Descends(contexts, path[0], path[|path| - 1])
    decreases |path|
  {
    if |path| > 1 {
      assert IsParent(contexts, path[0], path[0 + 1]);
      var rest := path[1..];
      forall i | 0 <= i < |rest| - 1 ensures IsParent(contexts, rest[i], rest[i + 1]) {
        assert IsParent(contexts, path[i + 1], path[i + 1 + 1]);
      }
      PathDescends(contexts, rest);
    }
  }

  lemma {:induction false} DescendsHasPath(contexts: Contexts, candidate: ContextToken, ancestor: ContextToken)
    requires WellFormed(contexts) && Descends(contexts, candidate, ancestor)
    ensures Connected(contexts, candidate, ancestor)
    decreases candidate.id
  {
    if candidate == ancestor {
      assert IsPath(contexts, [candidate]);
    } else {
      var parent := contexts[candidate.id].parent.value;
      DescendsHasPath(contexts, parent, ancestor);
      var path :| IsPath(contexts, path) && path[0] == parent && path[|path| - 1] == ancestor;
      assert IsPath(contexts, [candidate] + path);
    }
  }

  // The walk decides exactly the reflexive-transitive parent relation on tokens
  // other than NONE.
  lemma DescendsIsConnected(contexts: Contexts, candidate: ContextToken, ancestor: ContextToken)
    requires WellFormed(contexts)
    ensures Descends(contexts, candidate, ancestor) <==> Connected(contexts, candidate, ancestor)
  {
    if Descends(contexts, candidate, ancestor) {
      DescendsHasPath(contexts, candidate, ancestor);
    }
    if Connected(contexts, candidate, ancestor) {
      var path :| IsPath(contexts, path) && path[0] == candidate && path[|path| - 1] == ancestor;
      PathDescends(contexts, path);
    }
  }

  // ---- what changes, and what does not change the answer ----

  function Linked(contexts: Contexts, id: nat, related: ContextToken): Contexts {
    if id in contexts && related !in contexts[id].links
    then contexts[id := contexts[id].(links := contexts[id].links + [related])] else contexts
  }

  // `later` has everything `earlier` has, up to links.
  ghost predicate Extends(earlier: Contexts, later: Contexts) {
    forall id :: id in earlier ==> id in later && later[id].parent == earlier[id].parent
  }

  lemma {:induction false} AnswersStand(
      earlier: Contexts, later: Contexts, candidate: ContextToken, ancestor: ContextToken)
    requires WellFormed(earlier) && WellFormed(later) && Extends(earlier, later) && candidate.id in earlier
    ensures Descends(later, candidate, ancestor) == Descends(earlier, candidate, ancestor)
    decreases candidate.id
  {
    if !candidate.IsNone() && candidate != ancestor && earlier[candidate.id].parent.Some? {
      AnswersStand(earlier, later, earlier[candidate.id].parent.value, ancestor);
    }
  }

  // Links alone never matter, even for tokens nobody minted.
  lemma {:induction false} LinksAreIgnored(
      contexts: Contexts, id: nat, related: ContextToken, candidate: ContextToken, ancestor: ContextToken)
    requires WellFormed(contexts)
    ensures WellFormed(Linked(contexts, id, related))
    ensures Descends(Linked(contexts, id, related), candidate, ancestor) == Descends(contexts, candidate, ancestor)
    decreases candidate.id
  {
    if !candidate.IsNone() && candidate != ancestor && candidate.id in contexts && contexts[candidate.id].parent.Some? {
      LinksAreIgnored(contexts, id, related, contexts[candidate.id].parent.value, ancestor);
    }
  }

  // ---- runs: minting takes an id first and stores the snapshot later ----

  function Snapshot(id: u64, parent: ContextToken, name: Text): ContextSnapshot {
    ContextSnapshot(ContextToken(id, 0), name, if parent.IsNone() then None else Some(parent), [])
  }

  datatype State = State(contexts: Contexts, next: nat, pending: map<nat, ContextSnapshot>)

  datatype Action =
    | Mint(parent: ContextToken, name: Text)
    | Store(id: nat)
    | Link(context: ContextToken, related: ContextToken)

  // A parent is NONE or a token this runtime has handed out.
  predicate IsMinted(contexts: Contexts, token: ContextToken) {
    token.id in contexts && contexts[token.id].token == token
  }

  function Step(s: State, a: Action): Option<State> {
    match a
    case Mint(parent, name) =>
      if s.next >= LAST_ID || !(parent.IsNone() || IsMinted(s.contexts, parent)) then None
      else
        Some(s.(next := s.next + 1, pending := s.pending[s.next := Snapshot(s.next, parent, name)]))
    case Store(id) =>
      if id !in s.pending then None
      else Some(s.(contexts := s.contexts[id := s.pending[id]], pending := s.pending - {id}))
    case Link(context, related) => Some(s.(contexts := Linked(s.contexts, context.id, related)))
  }

  function Replay(s: State, acts: seq<Action>): Option<State> {
    if acts == [] then Some(s)
    else
      var before := Replay(s, acts[..|acts| - 1]);
      if before.None? then None else Step(before.value, acts[|acts| - 1])
  }

  const INITIAL := State(map[], 1, map[])

  ghost predicate Inv(s: State) {
    && WellFormed(s.contexts) && s.next > 0
    && (forall id :: id in s.contexts ==> 0 < id < s.next && id !in s.pending && s.contexts[id].token.id == id)
    && (forall id :: id in s.pending ==>
          && 0 < id < s.next && s.pending[id].token.id == id
          && (s.pending[id].parent.Some? ==>
                var parent := s.pending[id].parent.value;
                !parent.IsNone() && parent.id < id && parent.id in s.contexts))
  }

  lemma StepKeeps(s: State, a: Action, t: State)
    requires Inv(s) && Step(s, a) == Some(t)
    ensures Inv(t) && Extends(s.contexts, t.contexts)
  {
    match a
    case Link(context, related) => LinkKeeps(s, context, related);
    case Store(id) => StoreKeeps(s, id);
    case Mint(parent, name) => assert t.contexts == s.contexts;
  }

  lemma LinkKeeps(s: State, context: ContextToken, related: ContextToken)
    requires Inv(s)
    ensures var t := s.(contexts := Linked(s.contexts, context.id, related));
      Inv(t) && Extends(s.contexts, t.contexts)
  {
    LinksAreIgnored(s.contexts, context.id, related, NO_CONTEXT, NO_CONTEXT);
  }

  lemma StoreKeeps(s: State, id: nat)
    requires Inv(s) && id in s.pending
    ensures var t := s.(contexts := s.contexts[id := s.pending[id]], pending := s.pending - {id});
      Inv(t) && Extends(s.contexts, t.contexts)
  {
    var contexts := s.contexts[id := s.pending[id]];
    assert WellFormed(contexts);
  }

  lemma {:induction false} ReplayKeeps(s: State, acts: seq<Action>, t: State)
    requires Inv(s) && Replay(s, acts) == Some(t)
    ensures Inv(t) && Extends(s.contexts, t.contexts)
  {
    if acts != [] {
      var before := Replay(s, acts[..|acts| - 1]).value;
      ReplayKeeps(s, acts[..|acts| - 1], before);
      StepKeeps(before, acts[|acts| - 1], t);
    }
  }

  // In every reachable store the walk is well founded and decides the parent
  // relation, and whatever is minted or linked later, its answer about a context
  // that already exists stays what it was.
  lemma LineageIsStable(
      acts: seq<Action>, s: State, more: seq<Action>, t: State, candidate: ContextToken, ancestor: ContextToken)
    requires Replay(INITIAL, acts) == Some(s) && Replay(s, more) == Some(t)
    ensures WellFormed(s.contexts) && WellFormed(t.contexts)
    ensures Descends(t.contexts, candidate, ancestor) <==> Connected(t.contexts, candidate, ancestor)
    ensures candidate.id in s.contexts ==>
      Descends(t.contexts, candidate, ancestor) == Descends(s.contexts, candidate, ancestor)
  {
    ReplayKeeps(INITIAL, acts, s);
    ReplayKeeps(s, more, t);
    DescendsIsConnected(t.contexts, candidate, ancestor);
    if candidate.id in s.contexts {
      AnswersStand(s.contexts, t.contexts, candidate, ancestor);
    }
  }

  // ---- what becomes of one context ----

  // The snapshot of a context made under `id`, as yet without links.
  predicate IsMadeAs(made: ContextSnapshot, id: nat, parent: ContextToken, name: Text) {
    && made.token.id == id && made.token.flags == 0 && made.name == name
    && (made.parent.None? <==> parent.id == 0) && (made.parent.Some? ==> made.parent.value == parent)
  }

  // Context `id` is waiting to be stored without links, or has been stored.
  predicate IsBorn(s: State, id: nat, parent: ContextToken, name: Text) {
    && id < s.next
    && (if id in s.contexts then IsMadeAs(s.contexts[id], id, parent, name)
        else id in s.pending && IsMadeAs(s.pending[id], id, parent, name) && s.pending[id].links == [])
  }

  lemma StepKeepsBorn(s: State, a: Action, t: State, id: nat, parent: ContextToken, name: Text)
    requires Inv(s) && IsBorn(s, id, parent, name) && Step(s, a) == Some(t)
    ensures IsBorn(t, id, parent, name)
  {
  }

  lemma {:induction false} RunKeepsBorn(s: State, acts: seq<Action>, t: State, id: nat, parent: ContextToken, name: Text)
    requires Inv(s) && IsBorn(s, id, parent, name) && Replay(s, acts) == Some(t)
    ensures IsBorn(t, id, parent, name)
  {
    if acts != [] {
      var before := Replay(s, acts[..|acts| - 1]).value;
      RunKeepsBorn(s, acts[..|acts| - 1], before, id, parent, name);
      ReplayKeeps(s, acts[..|acts| - 1], before);
      StepKeepsBorn(before, acts[|acts| - 1], t, id, parent, name);
    }
  }

  // A context made under a parent descends from itself and from what its parent
  // descends from, and from nothing else, whatever else happens before it is stored
  // and afterwards. One made under NONE descends from itself only.
  lemma ChildDescends(
      acts: seq<Action>, s: State, parent: ContextToken, name: Text, minted: State,
      more: seq<Action>, t: State, ancestor: ContextToken)
    requires Replay(INITIAL, acts) == Some(s) && Step(s, Mint(parent, name)) == Some(minted)
    requires Replay(minted, more) == Some(t) && s.next in t.contexts
    ensures WellFormed(s.contexts) && WellFormed(t.contexts) && IsMadeAs(t.contexts[s.next], s.next, parent, name)
    ensures var child := ContextToken(s.next, 0);
      Descends(t.contexts, child, ancestor) <==> ancestor == child || Descends(s.contexts, parent, ancestor)
    ensures parent.id == 0 ==> !Descends(s.contexts, parent, ancestor)
  {
    ReplayKeeps(INITIAL, acts, s);
    StepKeeps(s, Mint(parent, name), minted);
    ReplayKeeps(minted, more, t);
    assert IsBorn(minted, s.next, parent, name);
    RunKeepsBorn(minted, more, t, s.next, parent, name);
    if parent.id != 0 {
      AnswersStand(s.contexts, t.contexts, parent, ancestor);
    }
  }

  // A request to link context `id` to `related`.
  predicate IsLinkTo(a: Action, id: nat, related: ContextToken) {
    a.Link? && a.context.id == id && a.related == related
  }

  predicate Distinct(links: seq<ContextToken>) {
    forall i, j :: 0 <= i < j < |links| ==> links[i] != links[j]
  }

  // From `was` to `now` a context kept all it had, and gained at its end each token it
  // was asked to link to, once.
  ghost predicate Gained(was: ContextSnapshot, acts: seq<Action>, id: nat, now: ContextSnapshot) {
    && now.token == was.token && now.name == was.name && now.parent == was.parent
    && was.links <= now.links && (Distinct(was.links) ==> Distinct(now.links))
    && forall related :: related in now.links
         <==> related in was.links || exists k :: 0 <= k < |acts| && IsLinkTo(acts[k], id, related)
  }

  lemma StepGains(s: State, a: Action, t: State, id: nat)
    requires Inv(s) && id in s.contexts && Step(s, a) == Some(t)
    ensures id in t.contexts
    ensures var was, now := s.contexts[id], t.contexts[id];
      && now.token == was.token && now.name == was.name && now.parent == was.parent
      && now.links == if a.Link? && a.context.id == id && a.related !in was.links then was.links + [a.related] else was.links
  {
  }

  lemma {:induction false} LinksAccumulate(s: State, acts: seq<Action>, t: State, id: nat)
    requires Inv(s) && id in s.contexts && Replay(s, acts) == Some(t)
    ensures id in t.contexts && Gained(s.contexts[id], acts, id, t.contexts[id])
  {
    if acts != [] {
      var n := |acts| - 1;
      var before := Replay(s, acts[..n]).value;
      LinksAccumulate(s, acts[..n], before, id);
      ReplayKeeps(s, acts[..n], before);
      StepGains(before, acts[n], t, id);
      GainedOnce(s.contexts[id], acts, id, before.contexts[id], t.contexts[id]);
    }
  }

  lemma GainedOnce(was: ContextSnapshot, acts: seq<Action>, id: nat, middle: ContextSnapshot, now: ContextSnapshot)
    requires acts != [] && Gained(was, acts[..|acts| - 1], id, middle)
    requires var a := acts[|acts| - 1];
      && now.token == middle.token && now.name == middle.name && now.parent == middle.parent
      && now.links == if a.Link? && a.context.id == id && a.related !in middle.links then middle.links + [a.related] else middle.links
    ensures Gained(was, acts, id, now)
  {
    var n := |acts| - 1;
    forall related
      ensures related in now.links
        <==> related in was.links || exists k :: 0 <= k <= n && IsLinkTo(acts[k], id, related)
    {
      assert IsLinkTo(acts[n], id, related) ==> related in now.links;
      if k :| 0 <= k < n && IsLinkTo(acts[k], id, related) {
        assert IsLinkTo(acts[..n][k], id, related);
      }
    }
  }

  // A context is stored without links, and from then on its links are the tokens it was
  // asked to link to since, each once; nothing else about it ever changes.
  lemma LinksAreThoseAsked(
      acts: seq<Action>, s: State, id: nat, stored: State, more: seq<Action>, t: State)
    requires Replay(INITIAL, acts) == Some(s) && Step(s, Store(id)) == Some(stored) && Replay(stored, more) == Some(t)
    ensures id in stored.contexts && stored.contexts[id].links == []
    ensures id in t.contexts && Gained(stored.contexts[id], more, id, t.contexts[id]) && Distinct(t.contexts[id].links)
  {
    ReplayKeeps(INITIAL, acts, s);
    PendingHasNoLinks(acts, s, id);
    StepKeeps(s, Store(id), stored);
    LinksAccumulate(stored, more, t, id);
  }

  lemma {:induction false} PendingHasNoLinks(acts: seq<Action>, s: State, id: nat)
    requires Replay(INITIAL, acts) == Some(s) && id in s.pending
    ensures s.pending[id].links == []
  {
    if acts != [] {
      var before := Replay(INITIAL, acts[..|acts| - 1]).value;
      if id in before.pending {
        PendingHasNoLinks(acts[..|acts| - 1], before, id);
        ReplayKeeps(INITIAL, acts[..|acts| - 1], before);
      }
    }
  }

  // Creating a context in one go is the two steps back to back.
  lemma CreateIsMintThenStore(s: State, parent: ContextToken, name: Text)
    requires s.next < LAST_ID && s.next !in s.pending && (parent.IsNone() || IsMinted(s.contexts, parent))
    ensures Replay(s, [Mint(parent, name), Store(s.next)])
      == Some(State(s.contexts[s.next := Snapshot(s.next, parent, name)], s.next + 1, s.pending))
    ensures IsMadeAs(Snapshot(s.next, parent, name), s.next, parent, name) && Snapshot(s.next, parent, name).links == []
  {
    var made := Snapshot(s.next, parent, name);
    var minted := s.(next := s.next + 1, pending := s.pending[s.next := made]);
    assert Step(s, Mint(parent, name)) == Some(minted);
    assert minted.pending - {s.next} == s.pending;
    assert Step(minted, Store(s.next)) == Some(State(s.contexts[s.next := made], s.next + 1, s.pending));
    TwoSteps(s, Mint(parent, name), Store(s.next));
  }

  lemma TwoSteps(s: State, a: Action, b: Action)
    requires Step(s, a).Some?
    ensures Replay(s, [a, b]) == Step(Step(s, a).value, b)
  {
    assert [a, b][..1] == [a] && [a][..0] == [];
    assert Replay(s, [a]) == Step(s, a);
  }

  // ---- the store, in place ----

  class ContextStore {
    var contexts: Contexts
    var next: nat

    constructor ()
      ensures contexts == map[] && next == 1
    {
      contexts, next := map[], 1;
    }

    // `is_descendant`.
    method IsDescendant(token: ContextToken, ancestor: ContextToken) returns (r: bool)
      requires WellFormed(contexts)
      ensures r == Descends(contexts, token, ancestor)
    {
      var candidate := token;
      while !candidate.IsNone()
        invariant Descends(contexts, candidate, ancestor) == Descends(contexts, token, ancestor)
        decreases candidate.id
      {
        if candidate == ancestor {
          return true;
        }
        if candidate.id !in contexts || contexts[candidate.id].parent.None? {
          return false;
        }
        candidate := contexts[candidate.id].parent.value;
      }
      return false;
    }

    // Minting and storing with nothing in between.
    method CreateContext(parent: ContextToken, name: Text) returns (token: ContextToken)
      requires next < LAST_ID
      modifies this
      ensures token == ContextToken(old(next), 0)
      ensures contexts == old(contexts)[old(next) := Snapshot(old(next), parent, name)] && next == old(next) + 1
      ensures old(next) in contexts && IsMadeAs(contexts[old(next)], old(next), parent, name) && contexts[old(next)].links == []
      ensures contexts - {old(next)} == old(contexts) - {old(next)}
    {
      var id := next;
      next := next + 1;
      token := ContextToken(id, 0);
      contexts := contexts[id := ContextSnapshot(token, name, if parent.IsNone() then None else Some(parent), [])];
    }

    method LinkContext(context: ContextToken, related: ContextToken)
      modifies this`contexts
      ensures contexts == Linked(old(contexts), context.id, related)
      ensures contexts.Keys == old(contexts).Keys && contexts - {context.id as nat} == old(contexts) - {context.id as nat}
      ensures context.id in contexts ==>
        var was, now := old(contexts)[context.id], contexts[context.id];
        now == was.(links := if related in was.links then was.links else was.links + [related])
    {
      if context.id in contexts && related !in contexts[context.id].links {
        var snapshot := contexts[context.id];
        contexts := contexts[context.id := snapshot.(links := snapshot.links + [related])];
      }
    }
  }
}
