/** Skill resolution (skill/registry.go:372-497): each scope is a layer of runtime skills and
    providers; within a layer the least (rank, provider order, local order) wins a name, and a later
    scope overrides an earlier one. Maps are walked in any order. */
module Skills {

  datatype Candidate = Candidate(name: string, provider: string, rank: int)

  /** A candidate with where it came from. */
  datatype Entry = Entry(candidate: Candidate, providerOrder: nat, localOrder: nat, scope: string)

  datatype Binding = Binding(name: string, order: nat, active: bool)

  /** Providers by name, and the ranks of runtime skills by skill name. */
  datatype Layer = Layer(providers: map<string, Binding>, runtime: map<string, int>)

  const NO_LAYER := Layer(map[], map[])

  /** What a provider answers when listed. */
  datatype Listing = Listed(candidates: seq<Candidate>, complete: bool) | ListFailed

  const RUNTIME := "runtime"

  /** How the providers answer, by registration order. */
  type Answers = nat -> Listing

  type Check = Candidate -> bool

  function LayerAt(world: map<string, Layer>, scope: string): Layer { if scope in world then world[scope] else NO_LAYER }

  /** Orders identify the providers of a layer; 0 is the runtime's. */
  ghost predicate OrdersUnique(layer: Layer) {
    && (forall p :: p in layer.providers ==> layer.providers[p].order > 0 && layer.providers[p].name == p)
    && (forall p, q :: p in layer.providers && q in layer.providers && p != q ==> layer.providers[p].order != layer.providers[q].order)
  }

  function Owned(b: Binding, c: Candidate): Candidate { if c.provider == "" then c.(provider := b.name) else c }

  predicate Acceptable(b: Binding, c: Candidate, valid: Check) { Owned(b, c).provider == b.name && valid(Owned(b, c)) }

  // ---------------------------------------------------------------- what a layer offers

  predicate FromRuntime(layer: Layer, scope: string, e: Entry) {
    && e.candidate.name in layer.runtime
    && e == Entry(Candidate(e.candidate.name, RUNTIME, layer.runtime[e.candidate.name]), 0, 0, scope)
  }

  predicate FromProvider(b: Binding, scope: string, answers: Answers, e: Entry) {
    && b.active && answers(b.order).Listed?
    && e.localOrder < |answers(b.order).candidates|
    && e == Entry(Owned(b, answers(b.order).candidates[e.localOrder]), b.order, e.localOrder, scope)
  }

  predicate FromSome(layer: Layer, ps: set<string>, scope: string, answers: Answers, e: Entry) {
    exists p :: p in ps && p in layer.providers && FromProvider(layer.providers[p], scope, answers, e)
  }

  ghost predicate Offers(layer: Layer, scope: string, answers: Answers, e: Entry) {
    FromRuntime(layer, scope, e) || FromSome(layer, layer.providers.Keys, scope, answers, e)
  }

  predicate ProviderComplete(b: Binding, answers: Answers) { b.active && answers(b.order).Listed? && answers(b.order).complete }

  ghost predicate LayerComplete(layer: Layer, answers: Answers) {
    forall p :: p in layer.providers ==> ProviderComplete(layer.providers[p], answers)
  }

  predicate ProviderValid(b: Binding, answers: Answers, valid: Check) {
    b.active && answers(b.order).Listed? ==>
      forall i :: 0 <= i < |answers(b.order).candidates| ==> Acceptable(b, answers(b.order).candidates[i], valid)
  }

  ghost predicate LayerValid(layer: Layer, answers: Answers, valid: Check) {
    forall p :: p in layer.providers ==> ProviderValid(layer.providers[p], answers, valid)
  }

  predicate Before(a: Entry, b: Entry) {
    || a.candidate.rank < b.candidate.rank
    || (a.candidate.rank == b.candidate.rank
        && (a.providerOrder < b.providerOrder || (a.providerOrder == b.providerOrder && a.localOrder < b.localOrder)))
  }

  /** The winner of its name within a layer. */
  ghost predicate Wins(layer: Layer, scope: string, answers: Answers, e: Entry) {
    && Offers(layer, scope, answers, e)
    && forall x :: Offers(layer, scope, answers, x) && x.candidate.name == e.candidate.name ==> x == e || Before(e, x)
  }

  /** Two offers of one layer are never tied: the orders tell them apart. */
  lemma OffersAreOrdered(layer: Layer, scope: string, answers: Answers, a: Entry, b: Entry)
    requires OrdersUnique(layer) && Offers(layer, scope, answers, a) && Offers(layer, scope, answers, b)
    requires a.candidate.name == b.candidate.name && a != b
    ensures Before(a, b) != Before(b, a)
  {
  }

  lemma WinnerIsUnique(layer: Layer, scope: string, answers: Answers, a: Entry, b: Entry)
    requires Wins(layer, scope, answers, a) && Wins(layer, scope, answers, b) && a.candidate.name == b.candidate.name
    ensures a == b
  {
  }

  /** The winner of a name has the least rank offered for it; among equal ranks the provider registered
      first wins, the runtime before all, and within one provider the candidate it listed first. */
  lemma WinsExactly(layer: Layer, scope: string, answers: Answers, e: Entry)
    requires OrdersUnique(layer)
    ensures Wins(layer, scope, answers, e) <==>
              && Offers(layer, scope, answers, e)
              && forall x :: Offers(layer, scope, answers, x) && x.candidate.name == e.candidate.name ==>
                   && e.candidate.rank <= x.candidate.rank
                   && (e.candidate.rank == x.candidate.rank ==> e.providerOrder <= x.providerOrder)
                   && (e.candidate.rank == x.candidate.rank && e.providerOrder == x.providerOrder ==> e.localOrder <= x.localOrder)
  {
    forall x | Offers(layer, scope, answers, x) && Offers(layer, scope, answers, e) && x.candidate.name == e.candidate.name && x != e
      ensures x.providerOrder != e.providerOrder || x.localOrder != e.localOrder
    {
      OffersAreOrdered(layer, scope, answers, e, x);
    }
  }

  /** An offer of a valid layer is a candidate of the provider it names, or a runtime skill. */
  lemma OfferedBy(layer: Layer, scope: string, answers: Answers, valid: Check, e: Entry)
    requires OrdersUnique(layer) && LayerValid(layer, answers, valid) && Offers(layer, scope, answers, e)
    ensures e.scope == scope
    ensures e.providerOrder == 0 ==> e.candidate.name in layer.runtime && e.candidate.rank == layer.runtime[e.candidate.name]
    ensures e.providerOrder > 0 ==> valid(e.candidate) && e.candidate.provider in layer.providers
    ensures e.providerOrder > 0 ==> layer.providers[e.candidate.provider] == Binding(e.candidate.provider, e.providerOrder, true)
  {
    if e.providerOrder > 0 {
      var p :| p in layer.providers && FromProvider(layer.providers[p], scope, answers, e);
      assert ProviderValid(layer.providers[p], answers, valid);
      assert Acceptable(layer.providers[p], answers(layer.providers[p].order).candidates[e.localOrder], valid);
    }
  }

  // ---------------------------------------------------------------- sorting and picking

  ghost predicate Sorted(s: seq<Entry>) { forall i, j :: 0 <= i < j < |s| ==> !Before(s[j], s[i]) }

  function Insert(s: seq<Entry>, e: Entry): (r: seq<Entry>)
    ensures forall x :: x in r <==> x in s || x == e
  {
    if |s| == 0 then [e]
    else if Before(e, s[|s| - 1]) then Insert(s[..|s| - 1], e) + [s[|s| - 1]]
    else s + [e]
  }

  lemma {:induction false} InsertSorted(s: seq<Entry>, e: Entry)
    requires Sorted(s)
    ensures Sorted(Insert(s, e))
  {
    if |s| > 0 && Before(e, s[|s| - 1]) {
      var init, last := s[..|s| - 1], s[|s| - 1];
      InsertSorted(init, e);
      var r := Insert(init, e);
      forall i | 0 <= i < |r| ensures !Before(last, r[i]) {
        assert r[i] in r;
        if r[i] in init {
          var k :| 0 <= k < |init| && init[k] == r[i];
        }
      }
    }
  }

  method SortEntries(entries: seq<Entry>) returns (sorted: seq<Entry>)
    ensures Sorted(sorted) && forall e :: e in sorted <==> e in entries
  {
    sorted := [];
    for i := 0 to |entries|
      invariant Sorted(sorted) && forall e :: e in sorted <==> e in entries[..i]
    {
      assert entries[..i + 1] == entries[..i] + [entries[i]];
      InsertSorted(sorted, entries[i]);
      sorted := Insert(sorted, entries[i]);
    }
    assert entries[..|entries|] == entries;
  }

  predicate HasName(s: seq<Entry>, name: string) { exists i :: 0 <= i < |s| && s[i].candidate.name == name }

  lemma NameSnoc(s: seq<Entry>, e: Entry)
    ensures forall n :: HasName(s + [e], n) <==> HasName(s, n) || e.candidate.name == n
  {
    var t := s + [e];
    assert t[|s|] == e;
    forall n | HasName(s, n) ensures HasName(t, n) {
      var i :| 0 <= i < |s| && s[i].candidate.name == n;
      assert t[i] == s[i];
    }
    forall n | HasName(t, n) ensures HasName(s, n) || e.candidate.name == n {
      var i :| 0 <= i < |t| && t[i].candidate.name == n;
      if i < |s| { assert s[i] == t[i]; }
    }
  }

  /** No entry of the same name comes before `w`. */
  ghost predicate LeastOf(sorted: seq<Entry>, w: Entry) {
    w in sorted && forall x :: x in sorted && x.candidate.name == w.candidate.name ==> !Before(x, w)
  }

  /** What the first of each name amounts to, with the entries of one layer. */
  ghost predicate Picked(sorted: seq<Entry>, winners: seq<Entry>) {
    && (forall w :: w in winners ==> LeastOf(sorted, w))
    && (forall x :: x in sorted ==> HasName(winners, x.candidate.name))
  }

  /** Keeps the first entry of every name. */
  method FirstOfEachName(sorted: seq<Entry>) returns (winners: seq<Entry>)
    requires Sorted(sorted)
    ensures Picked(sorted, winners)
  {
    winners := [];
    var seen: set<string> := {};
    for i := 0 to |sorted|
      invariant forall w :: w in winners ==> LeastOf(sorted, w)
      invariant forall n :: n in seen <==> HasName(winners, n)
      invariant forall k :: 0 <= k < i ==> sorted[k].candidate.name in seen
    {
      var e := sorted[i];
      if e.candidate.name in seen {
        continue;
      }
      FirstIsLeast(sorted, i);
      NameSnoc(winners, e);
      seen := seen + {e.candidate.name};
      winners := winners + [e];
    }
    forall x | x in sorted ensures HasName(winners, x.candidate.name) {
      var k :| 0 <= k < |sorted| && sorted[k] == x;
      assert sorted[k].candidate.name in seen;
    }
  }

  lemma FirstIsLeast(sorted: seq<Entry>, i: nat)
    requires Sorted(sorted) && i < |sorted| && forall k :: 0 <= k < i ==> sorted[k].candidate.name != sorted[i].candidate.name
    ensures forall x :: x in sorted && x.candidate.name == sorted[i].candidate.name ==> !Before(x, sorted[i])
  {
    forall x | x in sorted && x.candidate.name == sorted[i].candidate.name ensures !Before(x, sorted[i]) {
      var k :| 0 <= k < |sorted| && sorted[k] == x;
    }
  }

  // ---------------------------------------------------------------- one layer

  datatype Collected<T> = Failed | Collected(value: T, complete: bool)

  /** The entries of the runtime skills, walked in any order. */
  method RuntimeEntries(layer: Layer, scope: string) returns (entries: seq<Entry>)
    ensures forall e :: e in entries <==> FromRuntime(layer, scope, e)
  {
    entries := [];
    var todo := layer.runtime.Keys;
    while todo != {}
      invariant todo <= layer.runtime.Keys
      invariant forall e :: e in entries <==> FromRuntime(layer, scope, e) && e.candidate.name !in todo
      decreases |todo|
    {
      var name :| name in todo;
      entries := entries + [Entry(Candidate(name, RUNTIME, layer.runtime[name]), 0, 0, scope)];
      todo := todo - {name};
    }
  }

  /** The entries one provider contributes, or failure on a candidate it may not offer. */
  method ProviderEntries(b: Binding, scope: string, answers: Answers, valid: Check) returns (r: Collected<seq<Entry>>)
    ensures r.Failed? <==> !ProviderValid(b, answers, valid)
    ensures r.Collected? ==> r.complete == ProviderComplete(b, answers)
    ensures r.Collected? ==> forall e :: e in r.value <==> FromProvider(b, scope, answers, e)
  {
    if !b.active || answers(b.order).ListFailed? {
      return Collected([], false);
    }
    var candidates := answers(b.order).candidates;
    var entries: seq<Entry> := [];
    for i := 0 to |candidates|
      invariant forall k :: 0 <= k < i ==> Acceptable(b, candidates[k], valid)
      invariant forall e :: e in entries <==> FromProvider(b, scope, answers, e) && e.localOrder < i
    {
      var c := Owned(b, candidates[i]);
      if c.provider != b.name || !valid(c) {
        return Failed;
      }
      entries := entries + [Entry(c, b.order, i, scope)];
    }
    return Collected(entries, answers(b.order).complete);
  }

  /** All entries of a layer, providers walked in any order. */
  method LayerEntries(layer: Layer, scope: string, answers: Answers, valid: Check) returns (r: Collected<seq<Entry>>)
    ensures r.Failed? <==> !LayerValid(layer, answers, valid)
    ensures r.Collected? ==> r.complete == LayerComplete(layer, answers)
    ensures r.Collected? ==> forall e :: e in r.value <==> Offers(layer, scope, answers, e)
  {
    var entries := RuntimeEntries(layer, scope);
    var complete := true;
    var todo := layer.providers.Keys;
    while todo != {}
      invariant todo <= layer.providers.Keys
      invariant forall p :: p in layer.providers && p !in todo ==> ProviderValid(layer.providers[p], answers, valid)
      invariant forall e :: e in entries <==> FromRuntime(layer, scope, e) || FromSome(layer, layer.providers.Keys - todo, scope, answers, e)
      invariant complete <==> forall p :: p in layer.providers && p !in todo ==> ProviderComplete(layer.providers[p], answers)
      decreases |todo|
    {
      var p :| p in todo;
      var one := ProviderEntries(layer.providers[p], scope, answers, valid);
      if one.Failed? {
        return Failed;
      }
      entries, complete := entries + one.value, complete && one.complete;
      todo := todo - {p};
    }
    return Collected(entries, complete);
  }

  /** The winners of a layer. */
  method CollectLayer(layer: Layer, scope: string, answers: Answers, valid: Check) returns (r: Collected<seq<Entry>>)
    requires OrdersUnique(layer)
    ensures r.Failed? <==> !LayerValid(layer, answers, valid)
    ensures r.Collected? ==> r.complete == LayerComplete(layer, answers)
    ensures r.Collected? ==> forall e :: e in r.value <==> Wins(layer, scope, answers, e)
    ensures r.Collected? ==> forall x :: Offers(layer, scope, answers, x) ==> HasName(r.value, x.candidate.name)
  {
    r := LayerEntries(layer, scope, answers, valid);
    if r.Failed? {
      return;
    }
    var sorted := SortEntries(r.value);
    var winners := FirstOfEachName(sorted);
    forall e ensures e in winners <==> Wins(layer, scope, answers, e) {
      LeastWins(layer, scope, answers, sorted, winners, e);
    }
    r := Collected(winners, r.complete);
  }

  lemma PickedWins(layer: Layer, scope: string, answers: Answers, sorted: seq<Entry>, winners: seq<Entry>, e: Entry)
    requires OrdersUnique(layer) && forall x :: x in sorted <==> Offers(layer, scope, answers, x)
    requires Picked(sorted, winners) && e in winners
    ensures Wins(layer, scope, answers, e)
  {
    forall x | Offers(layer, scope, answers, x) && x.candidate.name == e.candidate.name && x != e ensures Before(e, x) {
      OffersAreOrdered(layer, scope, answers, e, x);
    }
  }

  lemma LeastWins(layer: Layer, scope: string, answers: Answers, sorted: seq<Entry>, winners: seq<Entry>, e: Entry)
    requires OrdersUnique(layer) && forall x :: x in sorted <==> Offers(layer, scope, answers, x)
    requires Picked(sorted, winners)
    ensures e in winners <==> Wins(layer, scope, answers, e)
  {
    if e in winners {
      PickedWins(layer, scope, answers, sorted, winners, e);
    }
    if Wins(layer, scope, answers, e) {
      assert e in sorted && HasName(winners, e.candidate.name);
      var i :| 0 <= i < |winners| && winners[i].candidate.name == e.candidate.name;
      assert winners[i] in winners;
      PickedWins(layer, scope, answers, sorted, winners, winners[i]);
      WinnerIsUnique(layer, scope, answers, e, winners[i]);
    }
  }

  // ---------------------------------------------------------------- all scopes

  /** A layer offers some entry of the name. */
  ghost predicate Names(layer: Layer, scope: string, answers: Answers, name: string) {
    exists e: Entry :: Offers(layer, scope, answers, e) && e.candidate.name == name
  }

  /** The entry a name resolves to: the winner of the last scope that has the name. The layers are
      those read for the scopes, one each. */
  ghost predicate Resolves(layers: seq<Layer>, scopes: seq<string>, answers: Answers, e: Entry)
    requires |layers| == |scopes|
  {
    exists k :: 0 <= k < |scopes| && LastWins(layers, scopes, answers, e, k)
  }

  ghost predicate LastWins(layers: seq<Layer>, scopes: seq<string>, answers: Answers, e: Entry, k: nat)
    requires |layers| == |scopes| && k < |scopes|
  {
    && Wins(layers[k], scopes[k], answers, e)
    && forall j :: k < j < |scopes| ==> !Names(layers[j], scopes[j], answers, e.candidate.name)
  }

  /** A resolution: every name that resolves, to what it resolves to, and nothing else. */
  ghost predicate IsResolution(m: map<string, Entry>, layers: seq<Layer>, scopes: seq<string>, answers: Answers)
    requires |layers| == |scopes|
  {
    && (forall n :: n in m ==> m[n].candidate.name == n && Resolves(layers, scopes, answers, m[n]))
    && (forall e :: Resolves(layers, scopes, answers, e) ==> e.candidate.name in m)
  }

  lemma ResolvedOnce(layers: seq<Layer>, scopes: seq<string>, answers: Answers, a: Entry, b: Entry)
    requires |layers| == |scopes| && Resolves(layers, scopes, answers, a) && Resolves(layers, scopes, answers, b)
    requires a.candidate.name == b.candidate.name
    ensures a == b
  {
    var i :| 0 <= i < |scopes| && LastWins(layers, scopes, answers, a, i);
    var j :| 0 <= j < |scopes| && LastWins(layers, scopes, answers, b, j);
    assert Names(layers[i], scopes[i], answers, a.candidate.name) && Names(layers[j], scopes[j], answers, a.candidate.name);
    WinnerIsUnique(layers[i], scopes[i], answers, a, if i == j then b else a);
  }

  /** Whatever order the maps are walked in, there is only one resolution. */
  lemma ResolutionIsUnique(m: map<string, Entry>, m': map<string, Entry>, layers: seq<Layer>, scopes: seq<string>,
        answers: Answers)
    requires |layers| == |scopes| && IsResolution(m, layers, scopes, answers) && IsResolution(m', layers, scopes, answers)
    ensures m == m'
  {
    forall n | n in m ensures n in m' && m[n] == m'[n] {
      ResolvedOnce(layers, scopes, answers, m[n], m'[n]);
    }
    assert forall n :: n in m' ==> n in m;
  }

  /** Overlaying the winners of one more scope. */
  lemma ResolutionSnoc(m: map<string, Entry>, m': map<string, Entry>, layers: seq<Layer>, scopes: seq<string>,
        answers: Answers,
                       layer: Layer, scope: string, winners: seq<Entry>)
    requires |layers| == |scopes| && IsResolution(m, layers, scopes, answers)
    requires forall e :: e in winners <==> Wins(layer, scope, answers, e)
    requires forall x :: Offers(layer, scope, answers, x) ==> HasName(winners, x.candidate.name)
    requires forall n :: n in m' <==> n in m || HasName(winners, n)
    requires forall n :: n in m' ==> if HasName(winners, n) then m'[n] in winners && m'[n].candidate.name == n else m'[n] == m[n]
    ensures IsResolution(m', layers + [layer], scopes + [scope], answers)
  {
    var ls, ss := layers + [layer], scopes + [scope];
    forall n ensures Names(layer, scope, answers, n) <==> HasName(winners, n) {
      if HasName(winners, n) {
        var i :| 0 <= i < |winners| && winners[i].candidate.name == n;
        assert winners[i] in winners;
      }
    }
    forall n | n in m' ensures m'[n].candidate.name == n && Resolves(ls, ss, answers, m'[n]) {
      if HasName(winners, n) {
        assert LastWins(ls, ss, answers, m'[n], |scopes|);
      } else {
        OlderResolves(layers, scopes, answers, layer, scope, m[n]);
      }
    }
    forall e | Resolves(ls, ss, answers, e) ensures e.candidate.name in m' {
      if !Names(layer, scope, answers, e.candidate.name) { OlderResolves(layers, scopes, answers, layer, scope, e); }
    }
  }

  lemma OlderResolves(layers: seq<Layer>, scopes: seq<string>, answers: Answers, layer: Layer, scope: string, e: Entry)
    requires |layers| == |scopes| && !Names(layer, scope, answers, e.candidate.name)
    ensures Resolves(layers + [layer], scopes + [scope], answers, e) <==> Resolves(layers, scopes, answers, e)
  {
    var ls, ss := layers + [layer], scopes + [scope];
    if Resolves(layers, scopes, answers, e) {
      var k :| 0 <= k < |scopes| && LastWins(layers, scopes, answers, e, k);
      assert LastWins(ls, ss, answers, e, k);
    }
    if Resolves(ls, ss, answers, e) {
      var k :| 0 <= k < |ss| && LastWins(ls, ss, answers, e, k);
      assert k < |scopes|;
      forall j | k < j < |scopes| ensures !Names(layers[j], scopes[j], answers, e.candidate.name) {
        assert ls[j] == layers[j] && ss[j] == scopes[j];
      }
      assert LastWins(layers, scopes, answers, e, k);
    }
  }

  /** The winners of a layer overlay what earlier scopes resolved. */
  method Overlay(m: map<string, Entry>, winners: seq<Entry>) returns (merged: map<string, Entry>)
    ensures forall n :: n in merged <==> n in m || HasName(winners, n)
    ensures forall n :: n in merged ==>
      if HasName(winners, n) then merged[n] in winners && merged[n].candidate.name == n else n in m && merged[n] == m[n]
  {
    merged := m;
    for i := 0 to |winners|
      invariant forall n :: n in merged <==> n in m || HasName(winners[..i], n)
      invariant forall n :: n in merged ==> if HasName(winners[..i], n) then merged[n] in winners && merged[n].candidate.name == n
                                            else n in m && merged[n] == m[n]
    {
      assert winners[..i + 1] == winners[..i] + [winners[i]];
      NameSnoc(winners[..i], winners[i]);
      merged := merged[winners[i].candidate.name := winners[i]];
    }
    assert winners[..|winners|] == winners;
  }
}
