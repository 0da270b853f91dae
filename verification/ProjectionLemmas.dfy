/** How each fold of the projection reacts to appended events and to hidden nodes. */
module ProjectionLemmas {
  import opened Events
  import opened Surface

  // ---------------------------------------------------------------- hiding nodes

  lemma {:induction false} WithoutConcat(a: seq<Node>, b: seq<Node>, hidden: set<nat>)
    ensures Without(a + b, hidden) == Without(a, hidden) + Without(b, hidden)
  {
    if |b| == 0 {
      assert a + b == a;
    } else {
      var init := b[..|b| - 1];
      assert (a + b)[..|a + b| - 1] == a + init;
      WithoutConcat(a, init, hidden);
    }
  }

  lemma {:induction false} WithoutMembers(ns: seq<Node>, hidden: set<nat>)
    requires forall n :: n in ns ==> n.seqNo != 0
    ensures forall n :: n in Without(ns, hidden) <==> n in ns && n.seqNo !in hidden
  {
    if |ns| > 0 {
      assert ns == ns[..|ns| - 1] + [ns[|ns| - 1]];
      WithoutMembers(ns[..|ns| - 1], hidden);
    }
  }

  lemma {:induction false} WithoutTwice(ns: seq<Node>, a: set<nat>, b: set<nat>)
    ensures Without(Without(ns, a), b) == Without(ns, a + b)
  {
    if |ns| > 0 {
      var n := ns[|ns| - 1];
      WithoutTwice(ns[..|ns| - 1], a, b);
      WithoutConcat(Without(ns[..|ns| - 1], a), if n.seqNo != 0 && n.seqNo in a then [] else [n], b);
      assert Without([n], b) == if n.seqNo != 0 && n.seqNo in b then [] else [n];
    }
  }

  lemma {:induction false} WithoutSame(ns: seq<Node>, a: set<nat>, b: set<nat>)
    requires forall n :: n in ns ==> (n.seqNo in a <==> n.seqNo in b)
    ensures Without(ns, a) == Without(ns, b)
  {
    if |ns| > 0 {
      assert ns[|ns| - 1] in ns;
      WithoutSame(ns[..|ns| - 1], a, b);
    }
  }

  lemma {:induction false} WithoutNothing(nodes: seq<Node>, hidden: set<nat>)
    requires forall k :: 0 <= k < |nodes| ==> nodes[k].seqNo !in hidden
    ensures Without(nodes, hidden) == nodes
  {
    if |nodes| > 0 {
      WithoutNothing(nodes[..|nodes| - 1], hidden);
      assert nodes == nodes[..|nodes| - 1] + [nodes[|nodes| - 1]];
    }
  }

  // ---------------------------------------------------------------- one rewrite

  lemma AnyReplacedSnoc(ns: seq<Node>, n: Node, selected: set<nat>, own: nat)
    ensures AnyReplaced(ns + [n], selected, own)
      <==> AnyReplaced(ns, selected, own) || (n.seqNo != own && n.seqNo in selected)
  {
    var all := ns + [n];
    if AnyReplaced(ns, selected, own) {
      var i :| 0 <= i < |ns| && ns[i].seqNo != own && ns[i].seqNo in selected;
      assert all[i] == ns[i];
    }
    if n.seqNo != own && n.seqNo in selected {
      assert all[|ns|] == n;
    }
  }

  lemma AnySelectedSnoc(ns: seq<Node>, n: Node, selected: set<nat>)
    ensures AnySelected(ns + [n], selected) <==> AnySelected(ns, selected) || n.seqNo in selected
  {
    var all := ns + [n];
    if AnySelected(ns, selected) {
      var i :| 0 <= i < |ns| && ns[i].seqNo in selected;
      assert all[i] == ns[i];
    }
    if n.seqNo in selected {
      assert all[|ns|] == n;
    }
  }

  lemma {:induction false} SelectedWithout(ns: seq<Node>, selected: set<nat>, own: nat, hidden: set<nat>)
    requires selected !! hidden
    ensures AnyReplaced(Without(ns, hidden), selected, own) <==> AnyReplaced(ns, selected, own)
    ensures AnySelected(Without(ns, hidden), selected) <==> AnySelected(ns, selected)
  {
    if |ns| > 0 {
      var before := ns[..|ns| - 1];
      var n := ns[|ns| - 1];
      assert ns == before + [n];
      SelectedWithout(before, selected, own, hidden);
      WithoutSnoc(before, n, hidden);
      AnyReplacedSnoc(before, n, selected, own);
      AnySelectedSnoc(before, n, selected);
      AnyReplacedSnoc(Without(before, hidden), n, selected, own);
      AnySelectedSnoc(Without(before, hidden), n, selected);
    }
  }

  lemma RewriteSnoc(ns: seq<Node>, n: Node, selected: set<nat>, summary: Node)
    ensures Rewrite(ns + [n], selected, summary) == Rewrite(ns, selected, summary) + Rewritten(ns, n, selected, summary)
  {
    assert (ns + [n])[..|ns|] == ns;
  }

  lemma RewrittenWithout(before: seq<Node>, n: Node, selected: set<nat>, summary: Node, hidden: set<nat>)
    requires selected !! hidden && summary.seqNo !in hidden
    ensures Without(Rewritten(before, n, selected, summary), hidden)
         == if n.seqNo != 0 && n.seqNo in hidden then [] else Rewritten(Without(before, hidden), n, selected, summary)
  {
    SelectedWithout(before, selected, summary.seqNo, hidden);
    WithoutSnoc([], n, hidden);
    WithoutSnoc([], summary, hidden);
    assert [] + [n] == [n] && [] + [summary] == [summary];
  }

  /** Hiding nodes that no replacement looks for commutes with the rewrite. */
  lemma {:induction false} RewriteWithout(ns: seq<Node>, selected: set<nat>, summary: Node, hidden: set<nat>)
    requires selected !! hidden && summary.seqNo !in hidden
    ensures Without(Rewrite(ns, selected, summary), hidden) == Rewrite(Without(ns, hidden), selected, summary)
  {
    if |ns| > 0 {
      var before := ns[..|ns| - 1];
      var n := ns[|ns| - 1];
      assert ns == before + [n];
      calc {
        Without(Rewrite(ns, selected, summary), hidden);
        { RewriteSnoc(before, n, selected, summary);
          WithoutConcat(Rewrite(before, selected, summary), Rewritten(before, n, selected, summary), hidden); }
        Without(Rewrite(before, selected, summary), hidden) + Without(Rewritten(before, n, selected, summary), hidden);
        { RewriteWithout(before, selected, summary, hidden);
          RewrittenWithout(before, n, selected, summary, hidden); }
        Rewrite(Without(before, hidden), selected, summary)
        + if n.seqNo != 0 && n.seqNo in hidden then [] else Rewritten(Without(before, hidden), n, selected, summary);
        { WithoutSnoc(before, n, hidden);
          RewriteSnoc(Without(before, hidden), n, selected, summary); }
        Rewrite(Without(ns, hidden), selected, summary);
      }
    }
  }

  lemma WithoutSnoc(ns: seq<Node>, n: Node, hidden: set<nat>)
    ensures Without(ns + [n], hidden) == if n.seqNo != 0 && n.seqNo in hidden then Without(ns, hidden) else Without(ns, hidden) + [n]
  {
    assert (ns + [n])[..|ns|] == ns;
  }

  lemma {:induction false} RewriteMembers(ns: seq<Node>, selected: set<nat>, summary: Node)
    ensures forall n :: n in Rewrite(ns, selected, summary) ==> n == summary || (n in ns && n.seqNo !in selected)
    ensures forall n :: n in ns && n.seqNo !in selected && n.seqNo != summary.seqNo ==> n in Rewrite(ns, selected, summary)
    ensures AnyReplaced(ns, selected, summary.seqNo) ==> summary in Rewrite(ns, selected, summary)
  {
    if |ns| > 0 {
      var before := ns[..|ns| - 1];
      var n := ns[|ns| - 1];
      assert ns == before + [n];
      RewriteMembers(before, selected, summary);
      AnyReplacedSnoc(before, n, selected, summary.seqNo);
    }
  }

  /** A rewrite reads: keep everything before the first selected node, put the summary there, and
      drop the remaining selected nodes. */
  lemma {:induction false} RewriteMeaning(ns: seq<Node>, selected: set<nat>, summary: Node, first: nat)
    requires first < |ns| && ns[first].seqNo in selected
    requires forall k :: 0 <= k < first ==> ns[k].seqNo !in selected
    requires forall k :: 0 <= k < |ns| ==> ns[k].seqNo != summary.seqNo && ns[k].seqNo != 0
    ensures Rewrite(ns, selected, summary) == ns[..first] + [summary] + Without(ns[first + 1..], selected)
  {
    var before := ns[..|ns| - 1];
    var n := ns[|ns| - 1];
    if first == |ns| - 1 {
      RewriteUntouched(before, selected, summary);
      assert ns[first + 1..] == [] && before == ns[..first];
      assert !AnyReplaced(before, selected, summary.seqNo);
    } else {
      RewriteMeaning(before, selected, summary, first);
      assert before[..first] == ns[..first];
      var rest := ns[first + 1..];
      assert rest[..|rest| - 1] == before[first + 1..] && rest[|rest| - 1] == n;
      assert AnyReplaced(before, selected, summary.seqNo) by {
        assert before[first].seqNo in selected;
      }
    }
  }

  lemma {:induction false} RewriteUntouched(ns: seq<Node>, selected: set<nat>, summary: Node)
    requires forall k :: 0 <= k < |ns| ==> ns[k].seqNo !in selected && ns[k].seqNo != summary.seqNo
    ensures Rewrite(ns, selected, summary) == ns
  {
    if |ns| > 0 {
      RewriteUntouched(ns[..|ns| - 1], selected, summary);
      assert ns == ns[..|ns| - 1] + [ns[|ns| - 1]];
    }
  }

  // ---------------------------------------------------------------- all rewrites

  /** Hidden nodes stay out of the way of every replacement. */
  ghost predicate Untouched(rs: seq<Replacement>, hidden: set<nat>) {
    forall r :: r in rs ==> SourceSet(r.sourceSeqs) !! hidden && r.seqNo !in hidden
  }

  lemma {:induction false} FoldAllWithout(ns: seq<Node>, rs: seq<Replacement>, hidden: set<nat>)
    requires Untouched(rs, hidden)
    ensures FoldAll(Without(ns, hidden), rs).Ok? <==> FoldAll(ns, rs).Ok?
    ensures FoldAll(ns, rs).Ok? ==> FoldAll(Without(ns, hidden), rs).value == Without(FoldAll(ns, rs).value, hidden)
  {
    if |rs| > 0 {
      var before := rs[..|rs| - 1];
      var r := rs[|rs| - 1];
      assert rs == before + [r];
      FoldAllWithout(ns, before, hidden);
      if FoldAll(ns, before).Ok? {
        var folded := FoldAll(ns, before).value;
        SelectedWithout(folded, SourceSet(r.sourceSeqs), r.seqNo, hidden);
        RewriteWithout(folded, SourceSet(r.sourceSeqs), SummaryNode(r), hidden);
      }
    }
  }

  /** A trailing node that no replacement mentions stays in place. */
  lemma {:induction false} FoldAllAppend(ns: seq<Node>, n: Node, rs: seq<Replacement>)
    requires Untouched(rs, {n.seqNo})
    ensures FoldAll(ns + [n], rs).Ok? <==> FoldAll(ns, rs).Ok?
    ensures FoldAll(ns, rs).Ok? ==> FoldAll(ns + [n], rs).value == FoldAll(ns, rs).value + [n]
  {
    if |rs| > 0 {
      var before := rs[..|rs| - 1];
      var r := rs[|rs| - 1];
      assert rs == before + [r];
      assert n.seqNo in {n.seqNo};
      FoldAllAppend(ns, n, before);
      if FoldAll(ns, before).Ok? {
        var folded := FoldAll(ns, before).value;
        AnySelectedSnoc(folded, n, SourceSet(r.sourceSeqs));
        assert (folded + [n])[..|folded|] == folded;
      }
    }
  }

  ghost predicate HasNode(ns: seq<Node>, seqNo: nat) {
    exists n :: n in ns && n.seqNo == seqNo
  }

  /** Whatever no replacement shadows keeps a node through every rewrite. */
  lemma {:induction false} VisibleKeepsNode(ns: seq<Node>, rs: seq<Replacement>, seqNo: nat, shadowed: set<nat>)
    requires HasNode(ns, seqNo) && seqNo !in shadowed
    requires forall r :: r in rs ==> SourceSet(r.sourceSeqs) <= shadowed
    requires FoldAll(ns, rs).Ok?
    ensures HasNode(FoldAll(ns, rs).value, seqNo)
  {
    if |rs| > 0 {
      var before := rs[..|rs| - 1];
      var r := rs[|rs| - 1];
      assert rs == before + [r];
      VisibleKeepsNode(ns, before, seqNo, shadowed);
      var folded := FoldAll(ns, before).value;
      var selected := SourceSet(r.sourceSeqs);
      RewriteMembers(folded, selected, SummaryNode(r));
      if seqNo == r.seqNo {
        var i :| 0 <= i < |folded| && folded[i].seqNo in selected;
        assert AnyReplaced(folded, selected, r.seqNo);
        assert SummaryNode(r) in Rewrite(folded, selected, SummaryNode(r));
      } else {
        var n :| n in folded && n.seqNo == seqNo;
        assert n in Rewrite(folded, selected, SummaryNode(r));
      }
    }
  }

  lemma {:induction false} FoldMembers(ns: seq<Node>, rs: seq<Replacement>)
    requires FoldAll(ns, rs).Ok?
    ensures forall n :: n in FoldAll(ns, rs).value ==> n in ns || exists r :: r in rs && n == SummaryNode(r)
  {
    if |rs| > 0 {
      var before := rs[..|rs| - 1];
      var r := rs[|rs| - 1];
      assert rs == before + [r];
      FoldMembers(ns, before);
      RewriteMembers(FoldAll(ns, before).value, SourceSet(r.sourceSeqs), SummaryNode(r));
      forall n | n in FoldAll(ns, rs).value && n !in ns
        ensures exists q :: q in rs && n == SummaryNode(q)
      {
        if n == SummaryNode(r) {
          assert r in rs;
        } else {
          var q :| q in before && n == SummaryNode(q);
          assert q in rs;
        }
      }
    }
  }

  // ---------------------------------------------------------------- slots

  /** Every surface event that has something to show, superseded catalogs included. */
  function SlotOf(e: Event, done: map<nat, Replacement>): seq<Node> {
    if !IsSurface(e.payload) then []
    else if e.payload.SurfaceReplacement? then
      if e.seqNo in done then [Node(e.seqNo, [Message(User, [done[e.seqNo].summary])])] else []
    else [Node(e.seqNo, Render(e.payload))]
  }

  function Slots(events: seq<Event>, done: map<nat, Replacement>): seq<Node> {
    if |events| == 0 then []
    else Slots(events[..|events| - 1], done) + SlotOf(events[|events| - 1], done)
  }

  /** The catalogs that a newer visible catalog supersedes. */
  ghost function Superseded(events: seq<Event>, shadowed: set<nat>): set<nat> {
    set e | e in events && SkippedCatalog(e, LatestCatalog(events, shadowed), shadowed) :: e.seqNo
  }

  lemma DistinctSeqs(events: seq<Event>, a: Event, b: Event)
    requires Ordered(events) && a in events && b in events && a.seqNo == b.seqNo
    ensures a == b
  {
    var i :| 0 <= i < |events| && events[i] == a;
    var j :| 0 <= j < |events| && events[j] == b;
  }

  lemma {:induction false} BuildIsSlotsWithout(events: seq<Event>, latest: nat, replaced: set<nat>,
        done: map<nat, Replacement>, hidden: set<nat>)
    requires forall e :: e in events ==> e.seqNo > 0 && (e.seqNo in hidden <==> SkippedCatalog(e, latest, replaced))
    ensures BuildNodes(events, latest, replaced, done) == Without(Slots(events, done), hidden)
  {
    if |events| > 0 {
      var before := events[..|events| - 1];
      var e := events[|events| - 1];
      assert events == before + [e];
      BuildIsSlotsWithout(before, latest, replaced, done, hidden);
      WithoutConcat(Slots(before, done), SlotOf(e, done), hidden);
      assert Without(SlotOf(e, done), hidden) == NodesOf(e, latest, replaced, done);
    }
  }

  lemma {:induction false} SlotsMembers(events: seq<Event>, done: map<nat, Replacement>)
    ensures forall n :: n in Slots(events, done) ==> exists e :: e in events && e.seqNo == n.seqNo
    ensures forall e :: e in events && IsSurface(e.payload) && (e.payload.SurfaceReplacement? ==> e.seqNo in done)
              ==> HasNode(Slots(events, done), e.seqNo)
  {
    if |events| > 0 {
      var before := events[..|events| - 1];
      var last := events[|events| - 1];
      assert events == before + [last];
      SlotsMembers(before, done);
      forall n | n in Slots(events, done) ensures exists e :: e in events && e.seqNo == n.seqNo {
        if n in Slots(before, done) {
          var e :| e in before && e.seqNo == n.seqNo;
          assert e in events;
        } else {
          assert last in events && last.seqNo == n.seqNo;
        }
      }
      forall e | e in events && IsSurface(e.payload) && (e.payload.SurfaceReplacement? ==> e.seqNo in done)
        ensures HasNode(Slots(events, done), e.seqNo)
      {
        if e in before {
          var n :| n in Slots(before, done) && n.seqNo == e.seqNo;
          assert n in Slots(events, done);
        } else {
          assert |SlotOf(last, done)| == 1 && SlotOf(last, done)[0] in Slots(events, done);
        }
      }
    }
  }

  /** Replacements of events outside the log change no slot. */
  lemma {:induction false} SlotsSame(events: seq<Event>, a: map<nat, Replacement>, b: map<nat, Replacement>)
    requires forall e :: e in events ==> (e.seqNo in a <==> e.seqNo in b) && (e.seqNo in a ==> a[e.seqNo] == b[e.seqNo])
    ensures Slots(events, a) == Slots(events, b)
  {
    if |events| > 0 {
      assert events[|events| - 1] in events;
      SlotsSame(events[..|events| - 1], a, b);
    }
  }

  lemma {:induction false} LatestIsNewest(events: seq<Event>, shadowed: set<nat>)
    requires Ordered(events)
    ensures var v := LatestCatalog(events, shadowed);
            && (forall e :: e in events && e.payload.SkillCatalog? && e.seqNo !in shadowed ==> e.seqNo <= v)
            && (v > 0 ==> exists e :: e in events && e.payload.SkillCatalog? && e.seqNo !in shadowed && e.seqNo == v)
  {
    if |events| > 0 {
      var before := events[..|events| - 1];
      var last := events[|events| - 1];
      assert events == before + [last];
      LatestIsNewest(before, shadowed);
      if LatestCatalog(events, shadowed) > 0 && LatestCatalog(events, shadowed) == LatestCatalog(before, shadowed) {
        var e :| e in before && e.payload.SkillCatalog? && e.seqNo !in shadowed && e.seqNo == LatestCatalog(before, shadowed);
        assert e in events;
      } else if LatestCatalog(events, shadowed) > 0 {
        assert last in events;
      }
    }
  }

  // ---------------------------------------------------------------- the ledger

  /** What a folded ledger records about the log it came from. */
  ghost predicate LedgerMatches(l: Ledger, events: seq<Event>) {
    && (forall id :: id in l.order ==> id in l.transactions)
    && (forall id :: id in l.transactions && l.transactions[id].replacementSeen ==>
          exists e :: e in events && e.payload.SurfaceReplacement? && e.payload.tx == id && e.seqNo == l.transactions[id].replacementSeq)
  }

  lemma {:induction false} LedgerAlwaysMatches(events: seq<Event>)
    requires FoldLedger(events).Ok?
    ensures LedgerMatches(FoldLedger(events).value, events)
  {
    if |events| > 0 {
      var before := events[..|events| - 1];
      var last := events[|events| - 1];
      assert events == before + [last];
      LedgerAlwaysMatches(before);
      var l0 := FoldLedger(before).value;
      var l := FoldLedger(events).value;
      forall id | id in l.transactions && l.transactions[id].replacementSeen
        ensures exists e :: e in events && e.payload.SurfaceReplacement? && e.payload.tx == id && e.seqNo == l.transactions[id].replacementSeq
      {
        if id in l0.transactions && l0.transactions[id].replacementSeen {
          var e :| e in before && e.payload.SurfaceReplacement? && e.payload.tx == id && e.seqNo == l0.transactions[id].replacementSeq;
          assert e in events;
          assert l.transactions[id].replacementSeq == l0.transactions[id].replacementSeq;
        } else {
          assert last in events && last.payload.SurfaceReplacement?;
        }
      }
    }
  }

  lemma {:induction false} SealedSeqs(l: Ledger, order: seq<string>, events: seq<Event>)
    requires LedgerMatches(l, events) && forall id :: id in order ==> id in l.transactions
    ensures forall r :: r in SealedIn(l, order) ==> exists e :: e in events && e.payload.SurfaceReplacement? && e.seqNo == r.seqNo
  {
    if |order| > 0 {
      var init := order[..|order| - 1];
      assert order == init + [order[|order| - 1]];
      SealedSeqs(l, init, events);
    }
  }

  /** Changing transactions outside `order` changes nothing that is sealed in it. */
  lemma {:induction false} SealedSame(a: Ledger, b: Ledger, order: seq<string>)
    requires forall id :: id in order ==> Lookup(a, id) == Lookup(b, id)
    ensures SealedIn(a, order) == SealedIn(b, order)
  {
    if |order| > 0 {
      assert order == order[..|order| - 1] + [order[|order| - 1]];
      SealedSame(a, b, order[..|order| - 1]);
    }
  }

  lemma {:induction false} AppliedSources(rs: seq<Replacement>)
    requires ApplyAll(rs).Ok?
    ensures forall r :: r in rs ==> SourceSet(r.sourceSeqs) <= ApplyAll(rs).value.shadowed
    ensures forall x :: x in ApplyAll(rs).value.shadowed ==> exists r :: r in rs && x in r.sourceSeqs
  {
    if |rs| > 0 {
      var before := rs[..|rs| - 1];
      var last := rs[|rs| - 1];
      assert rs == before + [last];
      AppliedSources(before);
      forall x | x in ApplyAll(rs).value.shadowed ensures exists r :: r in rs && x in r.sourceSeqs {
        if x in ApplyAll(before).value.shadowed {
          var r :| r in before && x in r.sourceSeqs;
          assert r in rs;
        } else {
          assert last in rs && x in last.sourceSeqs;
        }
      }
    }
  }

  lemma {:induction false} DoneKeys(rs: seq<Replacement>)
    ensures forall x :: x in ByReplacementSeq(rs) ==> x > 0 && exists r :: r in rs && r.seqNo == x
    ensures forall r :: r in rs && r.seqNo > 0 ==> r.seqNo in ByReplacementSeq(rs)
  {
    if |rs| > 0 {
      var before := rs[..|rs| - 1];
      var last := rs[|rs| - 1];
      assert rs == before + [last];
      DoneKeys(before);
      forall x | x in ByReplacementSeq(rs) ensures x > 0 && exists r :: r in rs && r.seqNo == x {
        if x in ByReplacementSeq(before) {
          var r :| r in before && r.seqNo == x;
          assert r in rs;
        } else {
          assert last in rs;
        }
      }
    }
  }

  // ---------------------------------------------------------------- pairing

  lemma {:induction false} LastResultFound(events: seq<Event>, call: string)
    requires LastResult(events, call).Some?
    ensures exists e :: e in events && e.payload.ToolResult? && e.call == call && e.seqNo == LastResult(events, call).value
  {
    var e := events[|events| - 1];
    if e.payload.ToolResult? && e.call == call {
      assert e in events;
    } else {
      var before := events[..|events| - 1];
      LastResultFound(before, call);
      var r :| r in before && r.payload.ToolResult? && r.call == call && r.seqNo == LastResult(before, call).value;
      assert r in events;
    }
  }

  /** Events that are neither assistant messages nor results do not take part in pairing. */
  lemma PairingIgnores(events: seq<Event>, e: Event, shadowed: set<nat>)
    requires !e.payload.ToolResult? && !e.payload.AssistantMessage?
    ensures ValidPairing(events + [e], shadowed) <==> ValidPairing(events, shadowed)
  {
    var all := events + [e];
    assert all[..|events|] == events;
    assert forall call :: LastResult(all, call) == LastResult(events, call);
    assert forall call :: LastAssistant(all, call) == LastAssistant(events, call);
    assert forall i :: 0 <= i < |events| ==> all[i] == events[i];
    assert forall i :: 0 <= i < |events| ==> ResultSources(all, all[i]) == ResultSources(events, events[i]);
  }

  // ---------------------------------------------------------------- the messages of a list of nodes

  function MessageCount(nodes: seq<Node>): nat {
    if |nodes| == 0 then 0 else MessageCount(nodes[..|nodes| - 1]) + |nodes[|nodes| - 1].messages|
  }

  /** Every message of every node stands where the messages of the nodes before it end. */
  ghost predicate InNodeOrder(messages: seq<Message>, nodes: seq<Node>) {
    && |messages| == MessageCount(nodes)
    && forall i, k :: 0 <= i < |nodes| && 0 <= k < |nodes[i].messages| ==> MessageAt(messages, nodes, i, k)
  }

  ghost predicate MessageAt(messages: seq<Message>, nodes: seq<Node>, i: nat, k: nat)
    requires i < |nodes| && k < |nodes[i].messages|
  {
    MessageCount(nodes[..i]) + k < |messages| && messages[MessageCount(nodes[..i]) + k] == nodes[i].messages[k]
  }

  /** The messages a projection flattens to are those of its nodes, in the order of the nodes. */
  lemma {:induction false} FlattenInOrder(nodes: seq<Node>)
    ensures InNodeOrder(Flatten(nodes), nodes)
  {
    if |nodes| > 0 {
      var init, last := nodes[..|nodes| - 1], nodes[|nodes| - 1];
      FlattenInOrder(init);
      forall i, k | 0 <= i < |nodes| && 0 <= k < |nodes[i].messages| ensures MessageAt(Flatten(nodes), nodes, i, k) {
        if i < |init| {
          assert init[..i] == nodes[..i];
          assert MessageAt(Flatten(init), init, i, k);
        }
      }
    }
  }

  /** And no other list is in that order. */
  lemma {:induction false} OrderDecides(a: seq<Message>, b: seq<Message>, nodes: seq<Node>)
    requires InNodeOrder(a, nodes) && InNodeOrder(b, nodes)
    ensures a == b
    decreases |nodes|
  {
    if |nodes| > 0 {
      var init, last := nodes[..|nodes| - 1], nodes[|nodes| - 1];
      var n := MessageCount(init);
      OrderPrefix(a, nodes);
      OrderPrefix(b, nodes);
      OrderDecides(a[..n], b[..n], init);
      forall p | 0 <= p < |a| ensures a[p] == b[p] {
        if p < n {
          assert a[..n][p] == b[..n][p];
        } else {
          assert MessageAt(a, nodes, |init|, p - n) && MessageAt(b, nodes, |init|, p - n);
        }
      }
    }
  }

  lemma OrderPrefix(messages: seq<Message>, nodes: seq<Node>)
    requires |nodes| > 0 && InNodeOrder(messages, nodes)
    ensures InNodeOrder(messages[..MessageCount(nodes[..|nodes| - 1])], nodes[..|nodes| - 1])
  {
    var init := nodes[..|nodes| - 1];
    var before := messages[..MessageCount(init)];
    forall i, k | 0 <= i < |init| && 0 <= k < |init[i].messages| ensures MessageAt(before, init, i, k) {
      assert init[..i] == nodes[..i];
      assert MessageAt(messages, nodes, i, k);
      CountGrows(init, i);
    }
  }

  lemma {:induction false} CountGrows(nodes: seq<Node>, i: nat)
    requires i < |nodes|
    ensures MessageCount(nodes[..i]) + |nodes[i].messages| <= MessageCount(nodes)
    decreases |nodes|
  {
    var init := nodes[..|nodes| - 1];
    if i < |init| {
      assert init[..i] == nodes[..i];
      CountGrows(init, i);
    }
  }
}
