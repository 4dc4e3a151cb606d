// The racy two-word interest cache of a call site. Any number of threads interleave
// their loads and stores with each other and with configuration changes, each of which
// is made first and announced by a generation bump later.

module CallsiteCache {
  import opened Basics
  import opened Facade
  import opened Interest
  import opened Lineage
  import opened Runtime
  import opened LazyEvaluation
  import opened RuntimeState

  // Where one thread stands inside `Callsite::interest`.
  datatype Pc =
    | Outside
    | LoadedGeneration(g: nat)
    | Matched(g: nat)
    | Missed(g: nat)
    | HasBaseline(g: nat, baseline: Interest)
    | HasMask(g: nat, mask: Interest)
    | StoredWord(g: nat, mask: Interest)
    | Returned(g: nat, mask: Interest, hit: bool)

  // `computed` remembers every mask the dispatcher worked out, with the generation
  // the asking thread had read; `written` whether the tagged word was ever stored.
  datatype State = State(
    width: nat,
    site: Metadata,
    config: Config,
    generation: nat,
    pending: nat,
    cacheGeneration: nat,
    cacheWord: nat,
    threads: map<nat, Pc>,
    computed: set<(nat, Interest)>,
    written: bool)
  {
    function At(t: nat): Pc {
      if t in threads then threads[t] else Outside
    }

    function Goto(t: nat, pc: Pc): State {
      this.(threads := threads[t := pc])
    }
  }

  // `usize::MAX`, the mark of an unpopulated cache.
  function Unpopulated(width: nat): nat {
    Pow2(width) - 1
  }

  predicate Initial(s: State) {
    && s.width >= INTEREST_WIDTH
    && s.generation == 0 && s.pending == 0
    && s.cacheGeneration == Unpopulated(s.width) && s.cacheWord == 0 && !s.written
    && s.threads == map[] && s.computed == {}
  }

  datatype Action =
    | Change(config: Config)
    | Bump
    | LoadGeneration(t: nat)
    | CompareGeneration(t: nat)
    | CompareWord(t: nat)
    | ReadBaseline(t: nat)
    | ReadLists(t: nat)
    | StoreWord(t: nat)
    | StoreGeneration(t: nat)

  predicate Enabled(s: State, a: Action) {
    match a
    case Change(_) => true
    case Bump => s.pending > 0 && s.generation + 1 < Unpopulated(s.width)
    case LoadGeneration(t) => s.At(t).Outside? || s.At(t).Returned?
    case CompareGeneration(t) => s.At(t).LoadedGeneration?
    case CompareWord(t) => s.At(t).Matched?
    case ReadBaseline(t) => s.At(t).Missed?
    case ReadLists(t) => s.At(t).HasBaseline?
    case StoreWord(t) => s.At(t).HasMask?
    case StoreGeneration(t) => s.At(t).StoredWord?
  }

  function Apply(s: State, a: Action): State
    requires s.width >= INTEREST_WIDTH && Enabled(s, a)
  {
    match a
    case Change(config) => s.(config := config, pending := s.pending + 1)
    case Bump => s.(generation := s.generation + 1, pending := s.pending - 1)
    case LoadGeneration(t) => s.Goto(t, LoadedGeneration(s.generation))
    case CompareGeneration(t) =>
      var g := s.At(t).g;
      s.Goto(t, if s.cacheGeneration == g then Matched(g) else Missed(g))
    case CompareWord(t) =>
      var g := s.At(t).g;
      var interest := FromBits(s.cacheWord);
      s.Goto(t, if Tag(s.width, g, interest) == s.cacheWord then Returned(g, interest, true) else Missed(g))
    case ReadBaseline(t) => s.Goto(t, HasBaseline(s.At(t).g, s.config.baseline))
    case ReadLists(t) =>
      var mask := s.At(t).baseline.Union(ListsMask(s.config, s.site));
      s.Goto(t, HasMask(s.At(t).g, mask)).(computed := s.computed + {(s.At(t).g, mask)})
    case StoreWord(t) =>
      var pc := s.At(t);
      s.Goto(t, StoredWord(pc.g, pc.mask)).(cacheWord := Tag(s.width, pc.g, pc.mask), written := true)
    case StoreGeneration(t) =>
      var pc := s.At(t);
      s.Goto(t, Returned(pc.g, pc.mask, false)).(cacheGeneration := pc.g)
  }

  ghost predicate Leads(s: State, actions: seq<Action>, t: State)
    decreases |actions|
  {
    if actions == [] then s == t
    else
      s.width >= INTEREST_WIDTH && Enabled(s, actions[0]) && Leads(Apply(s, actions[0]), actions[1..], t)
  }

  ghost predicate Reachable(s: State) {
    exists s0: State, actions: seq<Action> :: Initial(s0) && Leads(s0, actions, s)
  }

  // ---- invariant ----

  // An answer obtained under generation `g` is the current one as long as no change
  // has been made, announced or not, since that generation was read.
  predicate Current(s: State, g: nat, mask: Interest) {
    s.generation == g && s.pending == 0 ==> mask == MaskOf(s.config, s.site)
  }

  ghost predicate ThreadOk(s: State, pc: Pc) {
    match pc
    case Outside => true
    case LoadedGeneration(g) => g <= s.generation
    case Matched(g) => g <= s.generation && s.written
    case Missed(g) => g <= s.generation
    case HasBaseline(g, b) => g <= s.generation && (s.generation == g && s.pending == 0 ==> b == s.config.baseline)
    case HasMask(g, mask) => g <= s.generation && (g, mask) in s.computed
    case StoredWord(g, mask) => g <= s.generation && (g, mask) in s.computed && s.written
    case Returned(g, mask, hit) => g <= s.generation && if hit then Vouched(s, g, mask) else (g, mask) in s.computed
  }

  predicate Congruent(width: nat, g: nat, h: nat)
    requires width >= INTEREST_WIDTH
  {
    g % TagSpan(width) == h % TagSpan(width)
  }

  // Some thread computed this very mask, for a generation the tag cannot tell from `g`.
  ghost predicate Vouched(s: State, g: nat, mask: Interest) {
    s.width >= INTEREST_WIDTH && exists h :: (h, mask) in s.computed && Congruent(s.width, g, h)
  }

  ghost predicate WordOk(s: State)
    requires s.width >= INTEREST_WIDTH
  {
    exists h, mask :: (h, mask) in s.computed && s.cacheWord == Tag(s.width, h, mask)
  }

  ghost predicate Inv(s: State) {
    && s.width >= INTEREST_WIDTH
    && s.generation < Unpopulated(s.width)
    && (s.cacheGeneration != Unpopulated(s.width) ==> s.written)
    && (s.written ==> WordOk(s))
    && (forall t | t in s.threads :: ThreadOk(s, s.threads[t]))
    && (forall p | p in s.computed :: p.0 <= s.generation && Current(s, p.0, p.1))
  }

  lemma InitialInv(s: State)
    requires Initial(s)
    ensures Inv(s)
  {
    WideEnough(s.width);
  }

  lemma {:induction false} WideEnough(width: nat)
    requires width >= 1
    ensures Pow2(width) >= 2
  {
  }

  lemma SharedKept(s: State, a: Action)
    requires Inv(s) && Enabled(s, a) && (a.Change? || a.Bump?)
    ensures Inv(Apply(s, a))
  {
    var n := Apply(s, a);
    forall t | t in n.threads ensures ThreadOk(n, n.threads[t]) {
      assert ThreadOk(s, s.threads[t]);
      if s.threads[t].Returned? && s.threads[t].hit {
        VouchedKept(s, n, s.threads[t].g, s.threads[t].mask);
      }
    }
    if n.written {
      WordKept(s, n);
    }
  }

  lemma VouchedKept(s: State, n: State, g: nat, mask: Interest)
    requires Vouched(s, g, mask) && n.width == s.width && s.computed <= n.computed
    ensures Vouched(n, g, mask)
  {
    var h :| (h, mask) in s.computed && Congruent(s.width, g, h);
    assert (h, mask) in n.computed;
  }

  lemma WordKept(s: State, n: State)
    requires s.width >= INTEREST_WIDTH && WordOk(s)
    requires n.width == s.width && s.computed <= n.computed && n.cacheWord == s.cacheWord
    ensures WordOk(n)
  {
    var h, mask :| (h, mask) in s.computed && s.cacheWord == Tag(s.width, h, mask);
    assert (h, mask) in n.computed;
  }

  // A step of one thread leaves configuration and generation alone, so the other
  // threads' facts survive; only its own new position needs an argument.
  lemma ThreadStepKept(s: State, n: State, t: nat, pc: Pc)
    requires Inv(s)
    requires n.threads == s.threads[t := pc]
    requires (n.width, n.site, n.config, n.generation, n.pending)
      == (s.width, s.site, s.config, s.generation, s.pending)
    requires s.computed <= n.computed && (s.written ==> n.written)
    requires ThreadOk(n, pc)
    requires forall p | p in n.computed && p !in s.computed :: p.0 <= n.generation && Current(n, p.0, p.1)
    requires n.cacheGeneration != Unpopulated(n.width) ==> n.written
    requires n.written ==> WordOk(n)
    ensures Inv(n)
  {
    forall u | u in n.threads ensures ThreadOk(n, n.threads[u]) {
      if u != t {
        assert ThreadOk(s, s.threads[u]);
        if s.threads[u].Returned? && s.threads[u].hit {
          VouchedKept(s, n, s.threads[u].g, s.threads[u].mask);
        }
      }
    }
  }

  // The heart of the cache: a word that carries the tag of `g` holds a mask that was
  // computed for a generation congruent to `g`.
  lemma HitIsVouched(s: State, g: nat)
    requires s.width >= INTEREST_WIDTH && WordOk(s)
    requires Tag(s.width, g, FromBits(s.cacheWord)) == s.cacheWord
    ensures Vouched(s, g, FromBits(s.cacheWord))
  {
    var h, mask :| (h, mask) in s.computed && s.cacheWord == Tag(s.width, h, mask);
    TagExact(s.width, g, FromBits(s.cacheWord), h, mask);
    assert Congruent(s.width, g, h);
  }

  lemma LoadKept(s: State, a: Action)
    requires a.LoadGeneration? || a.CompareGeneration? || a.CompareWord? || a.ReadBaseline?
    requires Inv(s) && Enabled(s, a)
    ensures Inv(Apply(s, a))
  {
    var n, t := Apply(s, a), a.t;
    if t in s.threads {
      assert ThreadOk(s, s.threads[t]);
    }
    if n.written {
      WordKept(s, n);
    }
    if a.CompareWord? && n.At(t).Returned? {
      HitIsVouched(s, s.At(t).g);
      VouchedKept(s, n, n.At(t).g, n.At(t).mask);
    }
    ThreadStepKept(s, n, t, n.At(t));
  }

  lemma ComputeKept(s: State, t: nat)
    requires Inv(s) && Enabled(s, ReadLists(t))
    ensures Inv(Apply(s, ReadLists(t)))
  {
    var n := Apply(s, ReadLists(t));
    assert ThreadOk(s, s.threads[t]);
    if n.written {
      WordKept(s, n);
    }
    ThreadStepKept(s, n, t, n.At(t));
  }

  lemma StoreKept(s: State, t: nat, a: Action)
    requires Inv(s) && Enabled(s, a) && (a == StoreWord(t) || a == StoreGeneration(t))
    ensures Inv(Apply(s, a))
  {
    var n := Apply(s, a);
    var pc := s.threads[t];
    assert ThreadOk(s, pc);
    if a.StoreWord? {
      assert (pc.g, pc.mask) in n.computed && n.cacheWord == Tag(n.width, pc.g, pc.mask);
    } else {
      WordKept(s, n);
    }
    ThreadStepKept(s, n, t, n.At(t));
  }

  lemma StepKept(s: State, a: Action)
    requires Inv(s) && Enabled(s, a)
    ensures Inv(Apply(s, a))
  {
    match a
    case Change(_) => SharedKept(s, a);
    case Bump => SharedKept(s, a);
    case ReadLists(t) => ComputeKept(s, t);
    case StoreWord(t) => StoreKept(s, t, a);
    case StoreGeneration(t) => StoreKept(s, t, a);
    case _ => LoadKept(s, a);
  }

  lemma {:induction false} RunKept(s: State, actions: seq<Action>, t: State)
    requires Inv(s) && Leads(s, actions, t)
    ensures Inv(t)
    decreases |actions|
  {
    if actions != [] {
      StepKept(s, actions[0]);
      RunKept(Apply(s, actions[0]), actions[1..], t);
    }
  }

  lemma ReachableInv(s: State)
    requires Reachable(s)
    ensures Inv(s)
  {
    var s0: State, actions: seq<Action> :| Initial(s0) && Leads(s0, actions, s);
    InitialInv(s0);
    RunKept(s0, actions, s);
  }

  // ---- theorems ----

  // In every reachable state, whatever the interleaving: a hit under generation `g`
  // answered with a mask some thread computed for a generation congruent to `g`.
  lemma HitWasComputed(s: State, t: nat)
    requires Reachable(s) && s.At(t).Returned?
    ensures Vouched(s, s.At(t).g, s.At(t).mask)
    ensures !s.At(t).hit ==> (s.At(t).g, s.At(t).mask) in s.computed
  {
    ReachableInv(s);
    assert ThreadOk(s, s.threads[t]);
    if !s.At(t).hit {
      assert Congruent(s.width, s.At(t).g, s.At(t).g);
    }
  }

  // No mask was computed for another generation that the tag cannot tell from `g`.
  predicate Distinguished(s: State, g: nat)
    requires s.width >= INTEREST_WIDTH
  {
    forall p | p in s.computed && Congruent(s.width, g, p.0) :: p.0 == g
  }

  // A run shorter than a full cycle of tags cannot collide.
  lemma ShortRunsAreDistinguished(s: State, g: nat)
    requires Inv(s) && g <= s.generation < TagSpan(s.width)
    ensures Distinguished(s, g)
  {
    SmallRemainder(g, TagSpan(s.width));
    forall p | p in s.computed && Congruent(s.width, g, p.0) ensures p.0 == g {
      SmallRemainder(p.0, TagSpan(s.width));
    }
  }

  lemma SmallRemainder(g: nat, m: nat)
    requires g < m
    ensures g % m == g
  {
  }

  // Coherence: when the answered generation is still the current one and every change
  // has been announced, the answer is the dispatcher's own.
  lemma CacheCoherent(s: State, t: nat)
    requires Reachable(s) && s.At(t).Returned?
    requires s.width >= INTEREST_WIDTH
    requires Distinguished(s, s.At(t).g)
    requires s.generation == s.At(t).g && s.pending == 0
    ensures s.At(t).mask == MaskOf(s.config, s.site)
  {
    ReachableInv(s);
    HitWasComputed(s, t);
    var h :| (h, s.At(t).mask) in s.computed && Congruent(s.width, s.At(t).g, h);
    assert (h, s.At(t).mask).0 == h;
    assert Current(s, h, s.At(t).mask);
  }

  // Together with lazy evaluation: under the mask the cache answers with, every sink is
  // handed exactly what evaluating every field would have given it.
  lemma CachedPipelineIsEager(
      s: State, t: nat, contexts: Contexts, context: ContextToken, values: seq<Value>, now: nat)
    requires Reachable(s) && s.At(t).Returned? && s.width >= INTEREST_WIDTH
    requires s.generation == s.At(t).g < TagSpan(s.width) && s.pending == 0
    requires WellFormed(contexts) && |s.site.fields| == |values|
    ensures LazyDeliveries(s.config, contexts, s.site, context, values, s.At(t).mask, now)
      == EagerDeliveries(s.config, contexts, s.site, context, values)
  {
    ReachableInv(s);
    ShortRunsAreDistinguished(s, s.At(t).g);
    CacheCoherent(s, t);
    LazyIsEager(s.config, contexts, s.site, context, values, now);
  }

  // ---- a collision does fool the cache ----

  lemma {:induction false} LeadsFurther(s: State, actions: seq<Action>, t: State, a: Action)
    requires Leads(s, actions, t) && t.width >= INTEREST_WIDTH && Enabled(t, a)
    ensures Leads(s, actions + [a], Apply(t, a))
    decreases |actions|
  {
    if actions == [] {
      assert [a][1..] == [];
    } else {
      LeadsFurther(Apply(s, actions[0]), actions[1..], t, a);
      assert (actions + [a])[1..] == actions[1..] + [a];
    }
  }

  lemma Take(s: State, a: Action) returns (n: State)
    requires Reachable(s) && s.width >= INTEREST_WIDTH && Enabled(s, a)
    ensures n == Apply(s, a) && Reachable(n)
  {
    n := Apply(s, a);
    var s0: State, actions: seq<Action> :| Initial(s0) && Leads(s0, actions, s);
    LeadsFurther(s0, actions, s, a);
  }

  lemma {:induction false} Announce(s: State, config: Config, times: nat) returns (n: State)
    requires Reachable(s) && s.width >= INTEREST_WIDTH && s.pending == 0
    requires s.generation + times < Unpopulated(s.width)
    ensures n == s.(config := if times == 0 then s.config else config, generation := s.generation + times)
    ensures Reachable(n)
    decreases times
  {
    n := s;
    if times > 0 {
      var changed := Take(s, Change(config));
      var bumped := Take(changed, Bump);
      n := Announce(bumped, config, times - 1);
    }
  }

  // A thread that misses ends up with the mask of the lists as they stand.
  lemma Miss(s: State, t: nat) returns (n: State)
    requires Reachable(s) && s.width >= INTEREST_WIDTH && s.At(t).Outside? && s.cacheGeneration != s.generation
    ensures n == s.Goto(t, HasMask(s.generation, MaskOf(s.config, s.site)))
      .(computed := s.computed + {(s.generation, MaskOf(s.config, s.site))})
    ensures Reachable(n)
  {
    n := Look(s, t);
    n := Take(n, ReadBaseline(t));
    n := Take(n, ReadLists(t));
    assert n.threads == s.threads[t := HasMask(s.generation, MaskOf(s.config, s.site))];
  }

  lemma Look(s: State, t: nat) returns (n: State)
    requires Reachable(s) && s.width >= INTEREST_WIDTH && s.At(t).Outside? && s.cacheGeneration != s.generation
    ensures n == s.Goto(t, Missed(s.generation)) && Reachable(n)
  {
    n := Take(s, LoadGeneration(t));
    n := Take(n, CompareGeneration(t));
    assert n.threads == s.threads[t := Missed(s.generation)];
  }

  // A call that finds nothing newer than what was stored takes the mask out of the word
  // in three loads and asks nobody.
  lemma WarmCacheHits(s: State, t: nat, mask: Interest) returns (n: State)
    requires Reachable(s) && s.width >= INTEREST_WIDTH && (s.At(t).Outside? || s.At(t).Returned?)
    requires s.cacheGeneration == s.generation && s.cacheWord == Tag(s.width, s.generation, mask)
    ensures Leads(s, [LoadGeneration(t), CompareGeneration(t), CompareWord(t)], n)
    ensures n == s.Goto(t, Returned(s.generation, mask, true))
  {
    TagExact(s.width, s.generation, mask, s.generation, mask);
    var a := Apply(s, LoadGeneration(t));
    var b := Apply(a, CompareGeneration(t));
    n := Apply(b, CompareWord(t));
    assert Leads(n, [], n);
    assert Leads(b, [CompareWord(t)], n);
    assert Leads(a, [CompareGeneration(t), CompareWord(t)], n);
    assert n.threads == s.threads[t := Returned(s.generation, mask, true)];
  }

  // Once a call has missed and stored undisturbed, the next call hits, whoever makes it.
  lemma SecondCallHits(s: State, t: nat, u: nat) returns (n: State)
    requires Reachable(s) && s.width >= INTEREST_WIDTH && s.cacheGeneration != s.generation
    requires s.At(t).Outside? && (s.At(u).Outside? || s.At(u).Returned?)
    ensures n.At(u) == Returned(s.generation, MaskOf(s.config, s.site), true)
    ensures n.At(t) == if t == u then n.At(u) else Returned(s.generation, MaskOf(s.config, s.site), false)
  {
    var mask := MaskOf(s.config, s.site);
    var a := Miss(s, t);
    var b := Take(a, StoreWord(t));
    var c := Take(b, StoreGeneration(t));
    n := WarmCacheHits(c, u, mask);
  }

  lemma SpanFits(width: nat)
    requires width >= INTEREST_WIDTH
    ensures TagSpan(width) < Unpopulated(width)
  {
    var d := width - INTEREST_WIDTH;
    assert Pow2(d + 1) == 2 * Pow2(d) && Pow2(d + 2) == 2 * Pow2(d + 1);
    PowGrows(d + 2, width);
  }

  lemma {:induction false} PowGrows(a: nat, b: nat)
    requires a <= b
    ensures Pow2(a) <= Pow2(b)
    decreases b
  {
    if a < b {
      PowGrows(a, b - 1);
    }
  }

  // Thread 1 overwrites the word thread 2 published; thread 3 then takes it for fresh.
  lemma Clobber(s: State, mask: Interest) returns (n: State)
    requires Reachable(s) && s.width >= INTEREST_WIDTH && s.generation == TagSpan(s.width)
    requires s.At(1) == HasMask(0, mask) && s.At(2).HasMask? && s.At(2).g == s.generation && s.At(3).Outside?
    ensures Reachable(n) && (n.config, n.site, n.generation, n.pending, n.width)
      == (s.config, s.site, s.generation, s.pending, s.width)
    ensures n.At(3) == Returned(s.generation, mask, true)
  {
    n := Take(s, StoreWord(2));
    n := Take(n, StoreGeneration(2));
    n := Take(n, StoreWord(1));
    TagExact(s.width, s.generation, mask, 0, mask);
    n := Take(n, LoadGeneration(3));
    n := Take(n, CompareGeneration(3));
    n := Take(n, CompareWord(3));
  }

  ghost predicate Fooled(s: State, stale: Interest) {
    && Reachable(s) && s.width >= INTEREST_WIDTH
    && s.generation == TagSpan(s.width) && s.pending == 0
    && s.At(3) == Returned(s.generation, stale, true)
  }

  // The condition is needed: for every word width and every two configurations there
  // is a run, one full cycle of tags long, that ends in a hit with the old mask.
  lemma CollisionFoolsTheCache(s0: State, config: Config)
    requires Initial(s0)
    ensures exists s: State ::
      Fooled(s, MaskOf(s0.config, s0.site)) && s.config == config && s.site == s0.site && s.width == s0.width
  {
    assert Leads(s0, [], s0);
    SpanFits(s0.width);
    var slow := Miss(s0, 1);
    var later := Announce(slow, config, TagSpan(s0.width));
    var both := Miss(later, 2);
    var s := Clobber(both, MaskOf(s0.config, s0.site));
    assert Fooled(s, MaskOf(s0.config, s0.site));
  }

  // A hit under the current generation, with every change announced.
  predicate SettledHit(s: State, t: nat) {
    s.At(t).Returned? && s.At(t).hit && s.At(t).g == s.generation && s.pending == 0
  }

  // No run of at most `bound` generations ends in a settled hit with a wrong mask.
  ghost predicate HitsAreRight(width: nat, site: Metadata, bound: nat) {
    forall s, t | Reachable(s) && s.width == width && s.site == site && s.generation <= bound && SettledHit(s, t) ::
      s.At(t).mask == MaskOf(s.config, s.site)
  }

  // Whatever the call site, that is so exactly when the generations are fewer than the
  // tag can tell apart.
  lemma CacheRightIffShort(width: nat, site: Metadata, bound: nat)
    requires width >= INTEREST_WIDTH
    ensures HitsAreRight(width, site, bound) <==> bound < TagSpan(width)
  {
    if bound < TagSpan(width) {
      forall s, t | Reachable(s) && s.width == width && s.site == site && s.generation <= bound && SettledHit(s, t)
        ensures s.At(t).mask == MaskOf(s.config, s.site)
      {
        ShortHitIsRight(s, t);
      }
    } else {
      var s := SomeHitIsWrong(width, site);
      assert SettledHit(s, 3) && s.At(3).mask != MaskOf(s.config, s.site);
    }
  }

  lemma ShortHitIsRight(s: State, t: nat)
    requires Reachable(s) && s.width >= INTEREST_WIDTH && s.generation < TagSpan(s.width) && SettledHit(s, t)
    ensures s.At(t).mask == MaskOf(s.config, s.site)
  {
    ReachableInv(s);
    ShortRunsAreDistinguished(s, s.generation);
    CacheCoherent(s, t);
  }

  lemma SomeHitIsWrong(width: nat, site: Metadata) returns (s: State)
    requires width >= INTEREST_WIDTH
    ensures Reachable(s) && s.width == width && s.site == site && s.generation == TagSpan(width)
    ensures SettledHit(s, 3) && s.At(3).mask != MaskOf(s.config, s.site)
  {
    var quiet := Config(Native, NOTHING, [], []);
    var loud := quiet.(baseline := NOTHING.(coreSupport := true));
    assert !MaskOf(quiet, site).coreSupport && MaskOf(loud, site).coreSupport;
    var s0 := State.State(width, site, quiet, 0, 0, Unpopulated(width), 0, map[], {}, false);
    CollisionFoolsTheCache(s0, loud);
    s :| Fooled(s, MaskOf(quiet, site)) && s.config == loud && s.site == site && s.width == width;
  }

  // ---- one thread on its own ----

  // What a sequential caller relies on: the words are unpopulated, older than the
  // generation, or hold the current answer.
  predicate Coherent(width: nat, cacheGeneration: nat, cacheWord: nat, generation: nat, mask: Interest)
    requires width >= INTEREST_WIDTH
  {
    || cacheGeneration == Unpopulated(width)
    || cacheGeneration < generation
    || (cacheGeneration == generation && cacheWord == Tag(width, generation, mask))
  }

  class Callsite {
    const width: nat
    const metadata: Metadata
    var cacheGeneration: nat
    var cacheWord: nat

    constructor (width: nat, metadata: Metadata)
      requires width >= INTEREST_WIDTH
      ensures this.width == width && this.metadata == metadata
      ensures cacheGeneration == Unpopulated(width) && cacheWord == 0
    {
      this.width, this.metadata := width, metadata;
      cacheGeneration, cacheWord := Unpopulated(width), 0;
    }

    // `Callsite::interest`: always the dispatcher's own answer, computed or cached.
    method InterestFrom(dispatcher: RuntimeCore, now: nat) returns (interest: Interest)
      requires width >= INTEREST_WIDTH && dispatcher.generation < Unpopulated(width)
      requires Coherent(width, cacheGeneration, cacheWord, dispatcher.generation, MaskOf(dispatcher.View(), metadata))
      modifies this, dispatcher`activations, dispatcher`generation, dispatcher`catalog
      ensures interest == MaskOf(dispatcher.View(), metadata)
      ensures Coherent(width, cacheGeneration, cacheWord, dispatcher.generation, MaskOf(dispatcher.View(), metadata))
      ensures cacheGeneration == old(dispatcher.generation)
      ensures old(cacheGeneration) == old(dispatcher.generation) ==>
        && dispatcher.View() == old(dispatcher.View()) && dispatcher.generation == old(dispatcher.generation)
        && dispatcher.catalog == old(dispatcher.catalog) && cacheWord == old(cacheWord)
      ensures old(cacheGeneration) != old(dispatcher.generation) ==> metadata in dispatcher.catalog
    {
      var generation := dispatcher.generation;
      if cacheGeneration == generation {
        TagExact(width, generation, MaskOf(dispatcher.View(), metadata), generation, MaskOf(dispatcher.View(), metadata));
        interest := FromBits(cacheWord);
        if Tag(width, generation, interest) == cacheWord {
          return;
        }
      }
      interest := dispatcher.InterestIn(metadata, now);
      cacheWord := Tag(width, generation, interest);
      cacheGeneration := generation;
    }
  }
}
