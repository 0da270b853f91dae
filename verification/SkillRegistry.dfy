/** The skill registry and its revisioned cache (skill/registry.go:120-197, skill/registry.go:328-395,
    skill/registry.go:562-592). Other goroutines may change the registry between any two steps of a
    collection. */
module SkillRegistry {
  import opened Basics
  import opened Skills

  datatype Request = Request(cwd: string, scopes: seq<string>)

  datatype Key = Key(request: Request, revision: nat)

  const MAX_ATTEMPTS := 2
  const DEFAULT_CACHE := 128
  const RUNTIME_RANK := 250

  function ScopesOf(q: Request): seq<string> { [""] + q.scopes }

  /** The layers a request reads when the registry does not change. */
  function LayersOf(world: map<string, Layer>, scopes: seq<string>): seq<Layer> {
    if |scopes| == 0 then [] else LayersOf(world, scopes[..|scopes| - 1]) + [LayerAt(world, scopes[|scopes| - 1])]
  }

  /** A layer with some of its providers already disposed but not yet removed. */
  ghost predicate Weaker(layer: Layer, base: Layer) {
    && layer.runtime == base.runtime && layer.providers.Keys == base.providers.Keys
    && forall p :: p in layer.providers ==>
         layer.providers[p] == base.providers[p] || layer.providers[p] == base.providers[p].(active := false)
  }

  ghost predicate WorldWeaker(world: map<string, Layer>, base: map<string, Layer>) {
    world.Keys == base.Keys && forall s :: s in world ==> Weaker(world[s], base[s])
  }

  /** A complete reading of a weakened layer saw no disposed provider: it read the layer itself. */
  lemma CompleteIsWhole(layer: Layer, base: Layer, answers: Answers)
    requires Weaker(layer, base) && LayerComplete(layer, answers)
    ensures layer == base
  {
    forall p | p in layer.providers ensures layer.providers[p] == base.providers[p] {
      assert ProviderComplete(layer.providers[p], answers);
    }
    assert layer.providers == base.providers;
  }

  lemma {:induction false} CompleteReadsAreWhole(layers: seq<Layer>, world: map<string, Layer>, scopes: seq<string>,
        answers: Answers)
    requires |layers| == |scopes|
    requires forall k :: 0 <= k < |scopes| ==> Weaker(layers[k], LayerAt(world, scopes[k])) && LayerComplete(layers[k], answers)
    ensures layers == LayersOf(world, scopes)
  {
    if |scopes| > 0 {
      var n := |scopes| - 1;
      CompleteReadsAreWhole(layers[..n], world, scopes[..n], answers);
      CompleteIsWhole(layers[n], LayerAt(world, scopes[n]), answers);
      assert layers == layers[..n] + [layers[n]];
    }
  }

  /** Every layer's provider orders are unique and at most `n`. */
  ghost predicate OrdersUpTo(world: map<string, Layer>, n: nat) {
    forall s :: s in world ==> LayerUpTo(world[s], n)
  }

  ghost predicate LayerUpTo(layer: Layer, n: nat) {
    OrdersUnique(layer) && forall p :: p in layer.providers ==> layer.providers[p].order <= n
  }

  function WithProvider(layer: Layer, name: string, order: nat): Layer {
    Layer(layer.providers[name := Binding(name, order, true)], layer.runtime)
  }

  lemma NewOrderIsUnique(layer: Layer, name: string, n: nat)
    requires LayerUpTo(layer, n) && name !in layer.providers
    ensures LayerUpTo(WithProvider(layer, name, n + 1), n + 1)
  {
    var after := WithProvider(layer, name, n + 1);
    forall p | p in after.providers && p != name ensures p in layer.providers && after.providers[p] == layer.providers[p] {}
  }

  predicate HasProvider(world: map<string, Layer>, scope: string, name: string) { name in LayerAt(world, scope).providers }

  function Registered(world: map<string, Layer>, scope: string, name: string, order: nat): map<string, Layer> {
    world[scope := WithProvider(LayerAt(world, scope), name, order)]
  }

  /** Registering adds one active provider under its order and changes nothing else. */
  lemma RegisteredMeans(world: map<string, Layer>, scope: string, name: string, order: nat)
    ensures var after := Registered(world, scope, name, order);
            && HasProvider(after, scope, name) && LayerAt(after, scope).providers[name] == Binding(name, order, true)
            && (forall s :: LayerAt(after, s).runtime == LayerAt(world, s).runtime)
            && forall s, p :: s != scope || p != name ==>
                 (HasProvider(after, s, p) <==> HasProvider(world, s, p))
                 && (HasProvider(world, s, p) ==> LayerAt(after, s).providers[p] == LayerAt(world, s).providers[p])
  {
  }

  /** A runtime skill registered without a rank gets the default one. */
  function WithSkill(world: map<string, Layer>, scope: string, name: string, rank: int): map<string, Layer> {
    var layer := LayerAt(world, scope);
    world[scope := Layer(layer.providers, layer.runtime[name := if rank == 0 then RUNTIME_RANK else rank])]
  }

  lemma WithSkillMeans(world: map<string, Layer>, scope: string, name: string, rank: int)
    ensures var after := WithSkill(world, scope, name, rank);
            && name in LayerAt(after, scope).runtime
            && (rank != 0 ==> LayerAt(after, scope).runtime[name] == rank) && (rank == 0 ==> LayerAt(after, scope).runtime[name] == 250)
            && (forall s :: LayerAt(after, s).providers == LayerAt(world, s).providers)
            && forall s, n :: s != scope || n != name ==>
                 (n in LayerAt(after, s).runtime <==> n in LayerAt(world, s).runtime)
                 && (n in LayerAt(world, s).runtime ==> LayerAt(after, s).runtime[n] == LayerAt(world, s).runtime[n])
  {
  }

  /** A requested scope overrides the global one and every scope requested before it. */
  lemma LaterScopesWin(m: map<string, Entry>, world: map<string, Layer>, q: Request, answers: Answers, k: nat, e: Entry)
    requires |LayersOf(world, ScopesOf(q))| == |ScopesOf(q)| && IsResolution(m, LayersOf(world, ScopesOf(q)), ScopesOf(q), answers)
    requires k < |q.scopes| && Wins(LayerAt(world, q.scopes[k]), q.scopes[k], answers, e)
    requires forall j :: k < j < |q.scopes| ==> !Names(LayerAt(world, q.scopes[j]), q.scopes[j], answers, e.candidate.name)
    ensures e.candidate.name in m && m[e.candidate.name] == e
  {
    var scopes := ScopesOf(q);
    var layers := LayersOf(world, scopes);
    LayersAt(world, scopes);
    forall j | k + 1 < j < |scopes| ensures !Names(layers[j], scopes[j], answers, e.candidate.name) {
      assert scopes[j] == q.scopes[j - 1];
    }
    assert LastWins(layers, scopes, answers, e, k + 1);
    ResolvedOnce(layers, scopes, answers, m[e.candidate.name], e);
  }

  lemma {:induction false} LayersAt(world: map<string, Layer>, scopes: seq<string>)
    ensures |LayersOf(world, scopes)| == |scopes| && forall k :: 0 <= k < |scopes| ==> LayersOf(world, scopes)[k] == LayerAt(world, scopes[k])
  {
    if |scopes| > 0 { LayersAt(world, scopes[..|scopes| - 1]); }
  }

  lemma RegisterKeepsOrders(world: map<string, Layer>, scope: string, name: string, n: nat, order: nat,
        after: map<string, Layer>)
    requires OrdersUpTo(world, n) && !HasProvider(world, scope, name)
    requires order == n + 1 && after == Registered(world, scope, name, order)
    ensures OrdersUpTo(after, order)
  {
    NewOrderIsUnique(LayerAt(world, scope), name, n);
    forall s | s in world ensures LayerUpTo(world[s], n + 1) {
      assert LayerUpTo(world[s], n);
    }
  }

  lemma SkillKeepsOrders(world: map<string, Layer>, scope: string, name: string, rank: int, n: nat)
    requires OrdersUpTo(world, n)
    ensures OrdersUpTo(WithSkill(world, scope, name, rank), n)
  {
    assert LayerUpTo(LayerAt(world, scope), n);
  }

  /** Some scopes were read from weakened layers of `base` and resolved. */
  ghost predicate ReadSoFar(base: map<string, Layer>, answers: Answers, scopes: seq<string>, seen: seq<Layer>,
                            merged: map<string, Entry>, complete: bool) {
    && |seen| == |scopes| && IsResolution(merged, seen, scopes, answers)
    && (forall k :: 0 <= k < |scopes| ==> Weaker(seen[k], LayerAt(base, scopes[k])))
    && (complete ==> forall k :: 0 <= k < |scopes| ==> LayerComplete(seen[k], answers))
  }

  lemma ReadOneMore(base: map<string, Layer>, answers: Answers, scopes: seq<string>, seen: seq<Layer>,
        merged: map<string, Entry>, complete: bool,
                    scope: string, layer: Layer, winners: seq<Entry>, whole: bool, next: map<string, Entry>)
    requires ReadSoFar(base, answers, scopes, seen, merged, complete) && Weaker(layer, LayerAt(base, scope))
    requires (forall e :: e in winners <==> Wins(layer, scope, answers, e)) && (whole ==> LayerComplete(layer, answers))
    requires forall x :: Offers(layer, scope, answers, x) ==> HasName(winners, x.candidate.name)
    requires forall n :: n in next <==> n in merged || HasName(winners, n)
    requires forall n :: n in next ==>
      if HasName(winners, n) then next[n] in winners && next[n].candidate.name == n else next[n] == merged[n]
    ensures ReadSoFar(base, answers, scopes + [scope], seen + [layer], next, complete && whole)
  {
    ResolutionSnoc(merged, next, seen, scopes, answers, layer, scope, winners);
  }

  /** The registry without one provider of one scope. */
  function WithoutProvider(world: map<string, Layer>, scope: string, name: string): map<string, Layer> {
    if scope !in world then world else world[scope := Layer(world[scope].providers - {name}, world[scope].runtime)]
  }

  /** Removing a provider removes nothing else. */
  lemma OthersStay(world: map<string, Layer>, scope: string, name: string)
    ensures var after := WithoutProvider(world, scope, name);
            && after.Keys == world.Keys && !HasProvider(after, scope, name)
            && (forall s :: s in world ==> after[s].runtime == world[s].runtime)
            && forall s, p :: s in world && p in world[s].providers && (s != scope || p != name) ==>
                 p in after[s].providers && after[s].providers[p] == world[s].providers[p]
  {
  }

  lemma WithoutProviderKeepsOrders(world: map<string, Layer>, scope: string, name: string, n: nat)
    requires OrdersUpTo(world, n)
    ensures OrdersUpTo(WithoutProvider(world, scope, name), n)
  {
    if scope in world { assert LayerUpTo(world[scope], n); }
  }

  /** One binding: a provider's name may be taken again, its order is not. */
  predicate Bound(world: map<string, Layer>, scope: string, name: string, order: nat) {
    HasProvider(world, scope, name) && LayerAt(world, scope).providers[name].order == order
  }

  predicate Answering(world: map<string, Layer>, scope: string, name: string, order: nat) {
    Bound(world, scope, name, order) && LayerAt(world, scope).providers[name].active
  }

  /** Swapped out and not removed yet: its one disposal is under way. */
  predicate Disposing(world: map<string, Layer>, scope: string, name: string, order: nat) {
    Bound(world, scope, name, order) && !LayerAt(world, scope).providers[name].active
  }

  /** The registry without one runtime skill of one scope. */
  function WithoutSkill(world: map<string, Layer>, scope: string, name: string): map<string, Layer> {
    if scope !in world then world else world[scope := Layer(world[scope].providers, world[scope].runtime - {name})]
  }

  lemma WithoutSkillKeepsOrders(world: map<string, Layer>, scope: string, name: string, n: nat)
    requires OrdersUpTo(world, n)
    ensures OrdersUpTo(WithoutSkill(world, scope, name), n)
  {
    if scope in world { assert LayerUpTo(world[scope], n); }
  }

  /** Disposing a runtime skill takes back its registration and nothing else. */
  lemma SkillsComeAndGo(world: map<string, Layer>, scope: string, name: string, rank: int)
    requires scope in world && name !in world[scope].runtime
    ensures WithoutSkill(WithSkill(world, scope, name, rank), scope, name) == world
  {
    assert WithSkill(world, scope, name, rank)[scope].runtime - {name} == world[scope].runtime;
  }

  function Repeated(k: Key, n: nat): (ks: seq<Key>)
    ensures |ks| == n && forall i :: 0 <= i < n ==> ks[i] == k
  {
    seq(n, _ => k)
  }

  /** A layer after one of its providers stopped answering. */
  function Disposed(layer: Layer, name: string): Layer {
    if name !in layer.providers then layer
    else Layer(layer.providers[name := layer.providers[name].(active := false)], layer.runtime)
  }

  lemma DisposedIsWeaker(layer: Layer, base: Layer, name: string)
    requires Weaker(layer, base)
    ensures Weaker(Disposed(layer, name), base)
    ensures OrdersUnique(layer) ==> OrdersUnique(Disposed(layer, name))
  {
  }

  lemma DisposalWeakens(world: map<string, Layer>, base: map<string, Layer>, scope: string, name: string, n: nat)
    requires WorldWeaker(world, base) && OrdersUpTo(world, n) && scope in world
    ensures WorldWeaker(world[scope := Disposed(world[scope], name)], base)
    ensures OrdersUpTo(world[scope := Disposed(world[scope], name)], n)
  {
    var layer := Disposed(world[scope], name);
    DisposedIsWeaker(world[scope], base[scope], name);
    DisposedOrders(world[scope], name, n);
    WeakerLayer(world, base, scope, layer);
    UniqueLayer(world, scope, layer, n);
  }

  lemma WeakerLayer(world: map<string, Layer>, base: map<string, Layer>, scope: string, layer: Layer)
    requires WorldWeaker(world, base) && scope in world && Weaker(layer, base[scope])
    ensures WorldWeaker(world[scope := layer], base)
  {
    assert world[scope := layer].Keys == world.Keys;
  }

  lemma UniqueLayer(world: map<string, Layer>, scope: string, layer: Layer, n: nat)
    requires OrdersUpTo(world, n) && LayerUpTo(layer, n)
    ensures OrdersUpTo(world[scope := layer], n)
  {
  }

  lemma DisposedOrders(layer: Layer, name: string, n: nat)
    requires LayerUpTo(layer, n)
    ensures LayerUpTo(Disposed(layer, name), n)
  {
  }

  lemma RemovedAfterDisposal(world: map<string, Layer>, scope: string, name: string, order: nat)
    requires Answering(world, scope, name, order)
    ensures var after := world[scope := Disposed(world[scope], name)];
            Disposing(after, scope, name, order) && WithoutProvider(after, scope, name) == WithoutProvider(world, scope, name)
    ensures !HasProvider(WithoutProvider(world, scope, name), scope, name)
  {
    assert Disposed(world[scope], name).providers - {name} == world[scope].providers - {name};
  }

  function SetOf(s: seq<Key>): set<Key> { set k | k in s }

  lemma SetOfSnoc(s: seq<Key>, k: Key)
    ensures SetOf(s + [k]) == SetOf(s) + {k}
  {
  }

  lemma SetOfRest(s: seq<Key>)
    requires |s| > 0
    ensures SetOf(s) == SetOf(s[1..]) + {s[0]}
  {
    assert s == [s[0]] + s[1..];
  }

  lemma {:induction false} SetOfSize(s: seq<Key>)
    ensures |SetOf(s)| <= |s|
  {
    if |s| > 0 {
      SetOfSize(s[..|s| - 1]);
      assert s == s[..|s| - 1] + [s[|s| - 1]];
      assert SetOf(s) == SetOf(s[..|s| - 1]) + {s[|s| - 1]};
    }
  }

  class Registry {
    const maxEntries: nat
    const valid: Check
    // How the providers answer, which only an invalidation may change.
    const answers: (nat, Request) -> Answers
    var layers: map<string, Layer>
    var revision: nat
    var nextOrder: nat
    var cache: map<Key, map<string, Entry>>
    var cacheOrder: seq<Key>
    // The layers as of the last invalidation.
    ghost var base: map<string, Layer>

    constructor (maxEntries: int, valid: Check, answers: (nat, Request) -> Answers)
      ensures Valid() && cache == map[] && cacheOrder == [] && revision == 0 && layers == map["" := NO_LAYER]
      ensures this.valid == valid && this.answers == answers
      ensures this.maxEntries == if maxEntries <= 0 then DEFAULT_CACHE else maxEntries
    {
      this.maxEntries := if maxEntries <= 0 then DEFAULT_CACHE else maxEntries;
      this.valid, this.answers := valid, answers;
      layers, revision, nextOrder, cache, cacheOrder := map["" := NO_LAYER], 0, 0, map[], [];
      base := map["" := NO_LAYER];
    }

    /** The one right answer to a request, as of the last invalidation. */
    ghost predicate IsAnswer(m: map<string, Entry>, q: Request)
      reads this
    {
      IsResolutionOf(m, base, ScopesOf(q), answers(revision, q))
    }

    ghost predicate IsResolutionOf(m: map<string, Entry>, world: map<string, Layer>, scopes: seq<string>,
          answers: Answers) {
      |LayersOf(world, scopes)| == |scopes| && IsResolution(m, LayersOf(world, scopes), scopes, answers)
    }

    ghost predicate Valid()
      reads this
    {
      maxEntries > 0 && OrdersUpTo(layers, nextOrder) && WorldWeaker(layers, base) && CacheOk()
    }

    /** Bounded, and every entry is the right answer of the current revision. */
    ghost predicate CacheOk()
      reads this
    {
      && |cacheOrder| <= maxEntries && cache.Keys <= SetOf(cacheOrder)
      && forall k :: k in cache ==> k.revision == revision && IsAnswer(cache[k], k.request)
    }

    lemma CacheIsBounded()
      requires Valid()
      ensures |cache| <= maxEntries
    {
      SetOfSize(cacheOrder);
      SubsetSize(cache.Keys, SetOf(cacheOrder));
      assert |cache| == |cache.Keys|;
    }

    /** Every change of the registry starts a new revision with an empty cache. */
    method InvalidateLocked()
      requires maxEntries > 0 && OrdersUpTo(layers, nextOrder)
      modifies this`revision, this`cache, this`cacheOrder, this`base
      ensures Valid() && revision == old(revision) + 1 && base == layers && cache == map[]
    {
      revision := revision + 1;
      cache, cacheOrder := map[], [];
      base := layers;
    }

    /** Puts changed layers in place and starts a new revision. */
    method Change(world: map<string, Layer>, order: nat)
      requires maxEntries > 0 && OrdersUpTo(world, order)
      modifies this
      ensures Valid() && layers == base == world && nextOrder == order && revision == old(revision) + 1 && cache == map[]
    {
      layers, nextOrder := world, order;
      InvalidateLocked();
    }

    /** Registers a provider under the next order; a name is taken once per scope. */
    method RegisterProvider(name: string, scope: string) returns (registered: bool)
      requires Valid()
      modifies this
      ensures Valid() && registered == !HasProvider(old(layers), scope, name)
      ensures layers == if registered then Registered(old(layers), scope, name, old(nextOrder) + 1) else old(layers)
      ensures revision == if registered then old(revision) + 1 else old(revision)
      ensures !registered ==> base == old(base)
    {
      registered := !HasProvider(layers, scope, name);
      if registered {
        AddProvider(name, scope);
      }
    }

    method AddProvider(name: string, scope: string)
      requires maxEntries > 0 && OrdersUpTo(layers, nextOrder) && !HasProvider(layers, scope, name)
      modifies this
      ensures Valid() && layers == Registered(old(layers), scope, name, old(nextOrder) + 1) && revision == old(revision) + 1
    {
      var order := nextOrder + 1;
      var world := Registered(layers, scope, name, order);
      RegisterKeepsOrders(layers, scope, name, nextOrder, order, world);
      Change(world, order);
    }

    /** Registers a runtime skill; a name already present is left alone. */
    method RegisterSkill(scope: string, name: string, rank: int) returns (registered: bool)
      requires Valid()
      modifies this
      ensures Valid() && registered == (name !in LayerAt(old(layers), scope).runtime)
      ensures layers == if registered then WithSkill(old(layers), scope, name, rank) else old(layers)
      ensures revision == if registered then old(revision) + 1 else old(revision)
      ensures !registered ==> base == old(base)
    {
      registered := name !in LayerAt(layers, scope).runtime;
      if registered {
        SkillKeepsOrders(layers, scope, name, rank, nextOrder);
        Change(WithSkill(layers, scope, name, rank), nextOrder);
      }
    }

    /** Registers a runtime skill's disposal, which acts once. */
    method DisposeSkill(scope: string, name: string)
      requires Valid()
      modifies this
      ensures Valid() && revision == old(revision) + 1 && base == layers && cache == map[]
      ensures layers == WithoutSkill(old(layers), scope, name)
    {
      WithoutSkillKeepsOrders(layers, scope, name, nextOrder);
      Change(WithoutSkill(layers, scope, name), nextOrder);
    }

    /** Disposal, first half, outside the registry's lock: the binding stops answering. Only the
        first disposal of a binding swaps it out. */
    method Deactivate(scope: string, name: string, order: nat) returns (swapped: bool)
      requires Valid()
      modifies this`layers
      ensures Valid() && swapped == Answering(old(layers), scope, name, order)
      ensures layers == if swapped then old(layers)[scope := Disposed(old(layers)[scope], name)] else old(layers)
    {
      swapped := Answering(layers, scope, name, order);
      if swapped {
        DisposalWeakens(layers, base, scope, name, nextOrder);
        layers := layers[scope := Disposed(layers[scope], name)];
      }
    }

    /** Disposal, second half: that binding and no other is removed, and the cache invalidated. */
    method Unregister(scope: string, name: string, order: nat)
      requires Valid()
      modifies this
      ensures Valid() && revision == old(revision) + 1 && base == layers && cache == map[]
      ensures layers == if Bound(old(layers), scope, name, order) then WithoutProvider(old(layers), scope, name) else old(layers)
    {
      if Bound(layers, scope, name, order) {
        WithoutProviderKeepsOrders(layers, scope, name, nextOrder);
        Change(WithoutProvider(layers, scope, name), nextOrder);
      } else {
        InvalidateLocked();
      }
    }

    /** Both halves undisturbed: the first disposal removes the binding and starts a new revision,
        every later one does nothing, also when the name was taken again. */
    method Dispose(scope: string, name: string, order: nat)
      requires Valid()
      modifies this
      ensures Valid() && !Answering(layers, scope, name, order)
      ensures Answering(old(layers), scope, name, order) ==>
        layers == WithoutProvider(old(layers), scope, name) && revision == old(revision) + 1 && cache == map[]
      ensures !Answering(old(layers), scope, name, order) ==>
        layers == old(layers) && revision == old(revision) && cache == old(cache) && cacheOrder == old(cacheOrder)
    {
      ghost var before := layers;
      var swapped := Deactivate(scope, name, order);
      if swapped {
        RemovedAfterDisposal(before, scope, name, order);
        Unregister(scope, name, order);
      }
    }

    /** A later state of the registry: within one revision nothing was invalidated. */
    ghost predicate After(revision0: nat, base0: map<string, Layer>)
      reads this
    {
      Valid() && revision >= revision0 && (revision == revision0 ==> base == base0)
    }

    method InterfereOnce(scope: string, name: string, rank: int, order: nat, scopes: seq<string>, depth: nat)
      requires Valid()
      modifies this
      ensures After(old(revision), old(base))
      decreases depth, 0
    {
      if {
        case true => var _ := RegisterProvider(name, scope);
        case true => var _ := RegisterSkill(scope, name, rank);
        case true => DisposeSkill(scope, name);
        case true => var _ := Deactivate(scope, name, order);
        case Disposing(layers, scope, name, order) => Unregister(scope, name, order);
        case true => InvalidateLocked();
        case depth > 0 => var _ := Collect(Request(scope, scopes), depth - 1, true);
      }
    }

    /** What other goroutines may do in between, if there are any: any number of changes and
        collections, in any order; `depth` bounds how deeply collections may interrupt each other. */
    method Interfere(depth: nat, others: bool)
      requires Valid()
      modifies this
      ensures After(old(revision), old(base)) && (!others ==> unchanged(this))
      decreases depth, 1
    {
      var n: nat := *;
      while others && n > 0
        invariant After(old(revision), old(base)) && (!others ==> unchanged(this))
        decreases n
      {
        var order: nat := *;
        var scope: string := *;
        var name: string := *;
        var rank: int := *;
        var scopes: seq<string> := *;
        InterfereOnce(scope, name, rank, order, scopes, depth);
        n := n - 1;
      }
    }

    /** Every provider of a scope answers in full. */
    ghost predicate Answers(q: Request, scope: string)
      reads this
    {
      LayerValid(LayerAt(layers, scope), answers(revision, q), valid) && LayerComplete(LayerAt(layers, scope), answers(revision, q))
    }

    ghost predicate Answerable(q: Request)
      reads this
    {
      forall scope :: scope in ScopesOf(q) ==> Answers(q, scope)
    }

    /** Reads and resolves one layer at some later moment. */
    method ReadLayer(q: Request, scope: string, depth: nat, others: bool) returns (r: Collected<seq<Entry>>, ghost layer: Layer)
      requires Valid()
      modifies this
      ensures After(old(revision), old(base)) && Weaker(layer, LayerAt(base, scope))
      ensures !others ==> unchanged(this) && (Answers(q, scope) ==> r.Collected? && r.complete)
      ensures r.Collected? ==> (forall e :: e in r.value <==> Wins(layer, scope, answers(revision, q), e))
      ensures r.Collected? ==> (r.complete <==> LayerComplete(layer, answers(revision, q)))
      ensures r.Collected? ==> forall x :: Offers(layer, scope, answers(revision, q), x) ==> HasName(r.value, x.candidate.name)
      decreases depth, 2
    {
      Interfere(depth, others);
      layer := LayerAt(layers, scope);
      r := CollectLayer(LayerAt(layers, scope), scope, answers(revision, q), valid);
    }

    /** What a collection within one revision has established after some scopes. */
    ghost predicate Reading(q: Request, scopes: seq<string>, seen: seq<Layer>, merged: map<string, Entry>,
          complete: bool)
      reads this
    {
      ReadSoFar(base, answers(revision, q), scopes, seen, merged, complete)
    }

    /** One scope of a collection. */
    method ReadScope(q: Request, scopes: seq<string>, scope: string, ghost seen: seq<Layer>,
          merged: map<string, Entry>, complete: bool,
                     ghost revision0: nat, ghost base0: map<string, Layer>, depth: nat, others: bool)
      returns (r: Collected<map<string, Entry>>, ghost seen': seq<Layer>)
      requires After(revision0, base0) && (revision == revision0 ==> Reading(q, scopes, seen, merged, complete))
      modifies this
      ensures After(revision0, base0)
      ensures r.Collected? && revision == revision0 ==> Reading(q, scopes + [scope], seen', r.value, r.complete)
      ensures !others ==> unchanged(this) && (Answers(q, scope) ==> r.Collected? && r.complete == complete)
      decreases depth, 3
    {
      ghost var layer;
      var one;
      one, layer := ReadLayer(q, scope, depth, others);
      seen' := seen + [layer];
      if one.Failed? {
        return Failed, seen';
      }
      var next := Overlay(merged, one.value);
      if revision == revision0 {
        ReadOneMore(base, answers(revision, q), scopes, seen, merged, complete, scope, layer, one.value, one.complete, next);
      }
      r := Collected(next, complete && one.complete);
    }

    /** Reads the layers of a request one after the other, letting others in between. A complete
        answer within one revision is the right answer. */
    method CollectFresh(q: Request, depth: nat, others: bool) returns (r: Collected<map<string, Entry>>)
      requires Valid()
      modifies this
      ensures After(old(revision), old(base))
      ensures revision == old(revision) && r.Collected? && r.complete ==> IsAnswer(r.value, q)
      ensures !others ==> unchanged(this) && (Answerable(q) ==> r.Collected? && r.complete)
      decreases depth, 4
    {
      var scopes := ScopesOf(q);
      r := Collected(map[], true);
      ghost var seen: seq<Layer> := [];
      for i := 0 to |scopes|
        invariant After(old(revision), old(base)) && r.Collected?
        invariant revision == old(revision) ==> Reading(q, scopes[..i], seen, r.value, r.complete)
        invariant !others ==> unchanged(this) && (Answerable(q) ==> r.complete)
      {
        assert scopes[i] in scopes;
        assert scopes[..i + 1] == scopes[..i] + [scopes[i]];
        r, seen := ReadScope(q, scopes[..i], scopes[i], seen, r.value, r.complete, old(revision), old(base), depth, others);
        if r.Failed? {
          return;
        }
      }
      assert scopes[..|scopes|] == scopes;
      if r.complete && revision == old(revision) {
        CompleteReadsAreWhole(seen, base, scopes, answers(revision, q));
      }
    }

    /** Remembers a complete answer, dropping the oldest key beyond the bound. A key may be listed
        twice, so an answer is dropped at once when its own key is the oldest of a full list. */
    method Remember(k: Key, m: map<string, Entry>)
      requires Valid() && k.revision == revision && IsAnswer(m, k.request)
      modifies this`cache, this`cacheOrder
      ensures Valid()
      ensures |old(cacheOrder)| < maxEntries ==> cache == old(cache)[k := m] && cacheOrder == old(cacheOrder) + [k]
      ensures |old(cacheOrder)| == maxEntries ==>
        cache == old(cache)[k := m] - {old(cacheOrder)[0]} && cacheOrder == old(cacheOrder)[1..] + [k]
      ensures k in cache <==> !(|old(cacheOrder)| == maxEntries && old(cacheOrder)[0] == k)
    {
      ghost var before := cacheOrder;
      cache := cache[k := m];
      cacheOrder := cacheOrder + [k];
      SetOfSnoc(before, k);
      ghost var stored := cache;
      while |cacheOrder| > maxEntries
        invariant cache.Keys <= SetOf(cacheOrder)
        invariant forall j :: j in cache ==> j.revision == revision && IsAnswer(cache[j], j.request)
        invariant (cacheOrder == before + [k] && cache == stored)
               || (|before| == maxEntries && cacheOrder == before[1..] + [k] && cache == stored - {before[0]})
        decreases |cacheOrder|
      {
        var oldest := cacheOrder[0];
        SetOfRest(cacheOrder);
        cacheOrder := cacheOrder[1..];
        cache := cache - {oldest};
      }
    }

    /** One attempt after a cache miss: overtaken by a change, or remembered if complete. */
    method Attempt(q: Request, key: Key, depth: nat, others: bool) returns (overtaken: bool, r: Collected<map<string, Entry>>)
      requires Valid() && key == Key(q, revision)
      modifies this
      ensures After(old(revision), old(base))
      ensures overtaken ==> r.Collected?
      ensures r.Collected? && r.complete && !overtaken ==> IsAnswer(r.value, q)
      ensures !others ==> revision == old(revision) && layers == old(layers) && base == old(base) && nextOrder == old(nextOrder)
      ensures !others && Answerable(q) ==> !overtaken && r.Collected? && r.complete && Answerable(q)
      ensures !others && Answerable(q) && |old(cacheOrder)| < maxEntries ==>
        cache == old(cache)[key := r.value] && cacheOrder == old(cacheOrder) + [key]
      ensures !others && Answerable(q) && |old(cacheOrder)| == maxEntries ==>
        cache == old(cache)[key := r.value] - {old(cacheOrder)[0]} && cacheOrder == old(cacheOrder)[1..] + [key]
      decreases depth, 5
    {
      r := CollectFresh(q, depth, others);
      if r.Failed? {
        return false, r;
      }
      Interfere(depth, others);
      if key.revision != revision {
        return true, r;
      }
      if r.complete {
        Remember(key, r.value);
      }
      return false, r;
    }

    /** A complete answer, from the cache or collected, is the resolution as of the registry's
        current revision. What a change overtook is never cached and never reported complete. */
    method Collect(q: Request, depth: nat, others: bool) returns (r: Collected<map<string, Entry>>)
      requires Valid()
      modifies this
      ensures After(old(revision), old(base))
      ensures r.Collected? && r.complete ==> IsAnswer(r.value, q)
      ensures !others ==> revision == old(revision) && layers == old(layers)
      ensures !others && Answerable(q) && Key(q, revision) !in old(cache) && |old(cacheOrder)| == maxEntries ==>
        r.Collected? && r.complete && Answerable(q)
        && cache == old(cache)[Key(q, revision) := r.value] - {old(cacheOrder)[0]} && cacheOrder == old(cacheOrder)[1..] + [Key(q, revision)]
      decreases depth, 6
    {
      for attempt := 0 to MAX_ATTEMPTS
        invariant After(old(revision), old(base)) && (!others && Answerable(q) ==> attempt == 0)
        invariant !others ==> revision == old(revision) && layers == old(layers)
        invariant attempt == 0 ==> old(revision) == revision || others
        invariant attempt == 0 && !others ==> unchanged(this)
      {
        Interfere(depth, others);
        var key := Key(q, revision);
        if key in cache {
          return Collected(cache[key], true);
        }
        var overtaken;
        overtaken, r := Attempt(q, key, depth, others);
        if overtaken {
          if attempt + 1 < MAX_ATTEMPTS {
            continue;
          }
          return r.(complete := false);
        }
        return;
      }
      return Failed;
    }

    /** A full list may hold nothing but one key: one more collection of its request than the bound
        allows has missed the cache before the first of them stored its answer. Then nothing is cached. */
    method OverlappingCollections(q: Request)
      requires Valid() && Answerable(q) && cache == map[] && cacheOrder == []
      modifies this
      ensures Valid() && Answerable(q) && revision == old(revision)
      ensures cache == map[] && cacheOrder == Repeated(Key(q, revision), maxEntries)
    {
      var key := Key(q, revision);
      for i := 0 to maxEntries + 1
        invariant Valid() && Answerable(q) && revision == old(revision)
        invariant cacheOrder == Repeated(key, if i <= maxEntries then i else maxEntries)
        invariant cache.Keys == if 0 < i <= maxEntries then {key} else {}
      {
        var _, _ := Attempt(q, key, 0, false);
      }
    }

    /** From then on every collection of the request is complete, and dropped again. */
    method DroppedAgain(q: Request, n: nat)
      requires Valid() && Answerable(q) && cache == map[] && cacheOrder == Repeated(Key(q, revision), maxEntries)
      modifies this
      ensures Valid() && Answerable(q) && revision == old(revision)
      ensures cache == map[] && cacheOrder == Repeated(Key(q, revision), maxEntries)
    {
      for i := 0 to n
        invariant Valid() && Answerable(q) && revision == old(revision)
        invariant cache == map[] && cacheOrder == Repeated(Key(q, revision), maxEntries)
      {
        var r := Collect(q, 0, false);
        assert r.Collected? && r.complete && IsAnswer(r.value, q);
      }
    }
  }

  /** A new registry answers the empty request in full, so the state is reached with the smallest
      bound by two collections that overlap. */
  method TwoCollectionsDropTheAnswer(valid: Check, answers: (nat, Request) -> Answers, n: nat) returns (r: Registry)
    ensures fresh(r) && r.Valid() && r.maxEntries == 1
    ensures r.Answerable(Request("", [])) && r.cache == map[] && r.cacheOrder == [Key(Request("", []), r.revision)]
  {
    r := new Registry(1, valid, answers);
    r.OverlappingCollections(Request("", []));
    r.DroppedAgain(Request("", []), n);
  }
}
