/** When the visible list, and not just the listing with its superseded catalogs, is rewritten by a
    compaction: a selected catalog that the model no longer sees may stand before the first visible
    selected node, and the summary takes its place there (session/surface.go:376-434). */
module VisibleList {
  import opened Events
  import opened Surface
  import opened ProjectionLemmas
  import opened Selection
  import opened Compaction
  import opened CompactionTheorems

  // ---------------------------------------------------------------- two orders of hiding and rewriting

  ghost predicate AnyBefore(nodes: seq<Node>, selected: set<nat>, k: nat)
    requires k <= |nodes|
  {
    exists i :: 0 <= i < k && nodes[i].seqNo in selected
  }

  /** Some visible node is selected, and no visible unselected node stands between the first
      selected node and the first selected visible one. */
  ghost predicate SummaryInPlace(nodes: seq<Node>, selected: set<nat>, hidden: set<nat>) {
    exists j :: InPlaceAt(nodes, selected, hidden, j)
  }

  ghost predicate InPlaceAt(nodes: seq<Node>, selected: set<nat>, hidden: set<nat>, j: int) {
    && 0 <= j < |nodes| && nodes[j].seqNo in selected && nodes[j].seqNo !in hidden
    && forall k :: 0 <= k < j && AnyBefore(nodes, selected, k) ==> nodes[k].seqNo in selected + hidden
  }

  ghost predicate Named(nodes: seq<Node>, own: nat) {
    forall k :: 0 <= k < |nodes| ==> nodes[k].seqNo != 0 && nodes[k].seqNo != own
  }

  /** The first node that is left. */
  lemma {:induction false} FirstLeft(nodes: seq<Node>, hidden: set<nat>, own: nat) returns (f: nat)
    requires Named(nodes, own)
    ensures f <= |nodes| && forall k :: 0 <= k < f ==> nodes[k].seqNo in hidden
    ensures f == |nodes| ==> Without(nodes, hidden) == []
    ensures f < |nodes| ==> nodes[f].seqNo !in hidden && |Without(nodes, hidden)| > 0 && Without(nodes, hidden)[0] == nodes[f]
  {
    f := 0;
    if |nodes| > 0 {
      var init, last := nodes[..|nodes| - 1], nodes[|nodes| - 1];
      f := FirstLeft(init, hidden, own);
      assert nodes == init + [last];
      if f == |init| && last.seqNo in hidden { f := |nodes|; }
    }
  }

  lemma WithoutNamed(nodes: seq<Node>, hidden: set<nat>, own: nat)
    requires Named(nodes, own)
    ensures Named(Without(nodes, hidden), own)
    ensures forall k :: 0 <= k < |Without(nodes, hidden)| ==> Without(nodes, hidden)[k].seqNo !in hidden
  {
    WithoutMembers(nodes, hidden);
    var left := Without(nodes, hidden);
    forall k | 0 <= k < |left| ensures left[k].seqNo !in hidden && left[k] in nodes {
      assert left[k] in left;
    }
  }

  lemma FirstSelected(nodes: seq<Node>, selected: set<nat>) returns (f: nat)
    requires AnySelected(nodes, selected)
    ensures f < |nodes| && nodes[f].seqNo in selected && forall k :: 0 <= k < f ==> nodes[k].seqNo !in selected
  {
    f := 0;
    while nodes[f].seqNo !in selected
      invariant f < |nodes| && forall k :: 0 <= k < f ==> nodes[k].seqNo !in selected
      invariant exists i :: f <= i < |nodes| && nodes[i].seqNo in selected
      decreases |nodes| - f
    {
      f := f + 1;
    }
  }

  lemma {:induction false} RewriteConcat(a: seq<Node>, b: seq<Node>, selected: set<nat>, n: Node)
    requires forall k :: 0 <= k < |a| ==> a[k].seqNo !in selected && a[k].seqNo != n.seqNo
    ensures Rewrite(a + b, selected, n) == a + Rewrite(b, selected, n)
  {
    if |b| == 0 {
      RewriteUntouched(a, selected, n);
      assert a + b == a && a + Rewrite(b, selected, n) == a;
    } else {
      var init, last := b[..|b| - 1], b[|b| - 1];
      assert a + b == (a + init) + [last] && b == init + [last];
      RewriteConcat(a, init, selected, n);
      RewriteSnoc(a + init, last, selected, n);
      RewriteSnoc(init, last, selected, n);
      UnselectedPrefix(a, init, selected, n.seqNo);
    }
  }

  lemma UnselectedPrefix(a: seq<Node>, b: seq<Node>, selected: set<nat>, own: nat)
    requires forall k :: 0 <= k < |a| ==> a[k].seqNo !in selected
    ensures AnyReplaced(a + b, selected, own) <==> AnyReplaced(b, selected, own)
  {
    if AnyReplaced(b, selected, own) {
      var i :| 0 <= i < |b| && b[i].seqNo != own && b[i].seqNo in selected;
      assert (a + b)[|a| + i] == b[i];
    }
    if AnyReplaced(a + b, selected, own) {
      var i :| 0 <= i < |a + b| && (a + b)[i].seqNo != own && (a + b)[i].seqNo in selected;
      assert b[i - |a|] == (a + b)[i];
    }
  }

  lemma DropHead(x: Node, rest: seq<Node>, selected: set<nat>)
    requires x.seqNo != 0 && x.seqNo in selected
    ensures Without([x] + rest, selected) == Without(rest, selected)
  {
    WithoutConcat([x], rest, selected);
    WithoutSnoc([], x, selected);
    assert [] + [x] == [x] && [] + Without(rest, selected) == Without(rest, selected);
  }

  lemma SelectedHead(nodes: seq<Node>, selected: set<nat>, n: Node)
    requires Named(nodes, n.seqNo) && |nodes| > 0 && nodes[0].seqNo in selected
    ensures [n] + Without(nodes, selected) == Rewrite(nodes, selected, n)
  {
    RewriteMeaning(nodes, selected, n, 0);
    DropHead(nodes[0], nodes[1..], selected);
    assert nodes == [nodes[0]] + nodes[1..];
    assert nodes[..0] + [n] + Without(nodes[1..], selected) == [n] + Without(nodes[1..], selected);
  }

  /** Dropping the selected nodes behind a summary is the rewrite only if the first is selected. */
  lemma HeadDecides(nodes: seq<Node>, selected: set<nat>, n: Node)
    requires Named(nodes, n.seqNo)
    ensures [n] + Without(nodes, selected) == Rewrite(nodes, selected, n) <==> |nodes| > 0 && nodes[0].seqNo in selected
  {
    if |nodes| > 0 && nodes[0].seqNo in selected {
      SelectedHead(nodes, selected, n);
    } else if AnySelected(nodes, selected) {
      var f := FirstSelected(nodes, selected);
      RewriteMeaning(nodes, selected, n, f);
      assert Rewrite(nodes, selected, n)[0] == nodes[0] != n;
    } else {
      RewriteUntouched(nodes, selected, n);
      WithoutNothing(nodes, selected);
      assert |[n] + Without(nodes, selected)| == |nodes| + 1;
    }
  }

  lemma HideSummary(a: seq<Node>, n: Node, b: seq<Node>, hidden: set<nat>)
    requires n.seqNo !in hidden
    ensures Without(a + [n] + b, hidden) == Without(a, hidden) + ([n] + Without(b, hidden))
  {
    WithoutConcat(a + [n], b, hidden);
    WithoutSnoc(a, n, hidden);
    assert Without(a, hidden) + [n] + Without(b, hidden) == Without(a, hidden) + ([n] + Without(b, hidden));
  }

  lemma HideUnselected(nodes: seq<Node>, first: nat, selected: set<nat>, hidden: set<nat>)
    requires first <= |nodes| && forall k :: 0 <= k < first ==> nodes[k].seqNo !in selected
    ensures Without(nodes[..first], hidden - selected) == Without(nodes[..first], hidden)
  {
    var a := nodes[..first];
    forall x | x in a ensures x.seqNo in hidden - selected <==> x.seqNo in hidden {
      var k :| 0 <= k < |a| && a[k] == x;
      assert nodes[k] == x;
    }
    WithoutSame(a, hidden - selected, hidden);
  }

  lemma HideSelected(nodes: seq<Node>, selected: set<nat>, hidden: set<nat>)
    ensures Without(Without(nodes, selected), hidden - selected) == Without(Without(nodes, hidden), selected)
  {
    WithoutTwice(nodes, selected, hidden - selected);
    WithoutTwice(nodes, hidden, selected);
    assert selected + (hidden - selected) == hidden + selected;
  }

  /** The rewritten list without the nodes that are hidden and were not selected. */
  lemma RewriteThenHide(nodes: seq<Node>, selected: set<nat>, hidden: set<nat>, n: Node, first: nat)
    requires Named(nodes, n.seqNo) && n.seqNo !in hidden
    requires first < |nodes| && nodes[first].seqNo in selected && forall k :: 0 <= k < first ==> nodes[k].seqNo !in selected
    ensures Without(Rewrite(nodes, selected, n), hidden - selected)
         == Without(nodes[..first], hidden) + ([n] + Without(Without(nodes[first + 1..], hidden), selected))
  {
    RewriteMeaning(nodes, selected, n, first);
    HideSummary(nodes[..first], n, Without(nodes[first + 1..], selected), hidden - selected);
    HideUnselected(nodes, first, selected, hidden);
    HideSelected(nodes[first + 1..], selected, hidden);
  }

  /** The visible list, split at the first selected node. */
  lemma HideSplit(nodes: seq<Node>, hidden: set<nat>, first: nat)
    requires first < |nodes| && nodes[first].seqNo != 0
    ensures Without(nodes, hidden)
         == Without(nodes[..first], hidden)
            + ((if nodes[first].seqNo in hidden then [] else [nodes[first]]) + Without(nodes[first + 1..], hidden))
  {
    var a, x, rest := nodes[..first], nodes[first], nodes[first + 1..];
    assert nodes == (a + [x]) + rest;
    WithoutConcat(a + [x], rest, hidden);
    WithoutConcat(a, [x], hidden);
    assert Without([x], hidden) == if x.seqNo in hidden then [] else [x];
  }

  lemma HideThenRewrite(nodes: seq<Node>, selected: set<nat>, hidden: set<nat>, n: Node, first: nat)
    requires Named(nodes, n.seqNo)
    requires first < |nodes| && nodes[first].seqNo in selected && forall k :: 0 <= k < first ==> nodes[k].seqNo !in selected
    ensures Rewrite(Without(nodes, hidden), selected, n)
         == Without(nodes[..first], hidden)
            + Rewrite((if nodes[first].seqNo in hidden then [] else [nodes[first]]) + Without(nodes[first + 1..], hidden), selected, n)
  {
    var a := nodes[..first];
    HideSplit(nodes, hidden, first);
    WithoutMembers(a, hidden);
    var left := Without(a, hidden);
    forall k | 0 <= k < |left| ensures left[k].seqNo !in selected && left[k].seqNo != n.seqNo {
      assert left[k] in left;
      var i :| 0 <= i < |a| && a[i] == left[k];
      assert nodes[i] == left[k];
    }
    RewriteConcat(left, (if nodes[first].seqNo in hidden then [] else [nodes[first]]) + Without(nodes[first + 1..], hidden), selected, n);
  }

  /** Behind a hidden selected node, the first node left visible decides. */
  lemma BehindHidden(nodes: seq<Node>, selected: set<nat>, hidden: set<nat>, n: Node, first: nat)
    requires Named(nodes, n.seqNo) && first < |nodes| && nodes[first].seqNo in selected && nodes[first].seqNo in hidden
    requires forall k :: 0 <= k < first ==> nodes[k].seqNo !in selected
    ensures var rest := Without(nodes[first + 1..], hidden);
            SummaryInPlace(nodes, selected, hidden) <==> |rest| > 0 && rest[0].seqNo in selected
  {
    var tail := nodes[first + 1..];
    var f := FirstLeft(tail, hidden, n.seqNo);
    if SummaryInPlace(nodes, selected, hidden) {
      var j :| InPlaceAt(nodes, selected, hidden, j);
      assert tail[j - first - 1] == nodes[j];
      assert nodes[first + 1 + f] == tail[f];
      assert AnyBefore(nodes, selected, first + 1 + f);
    }
    if f < |tail| && tail[f].seqNo in selected {
      forall k | 0 <= k < first + 1 + f && AnyBefore(nodes, selected, k) ensures nodes[k].seqNo in selected + hidden {
        if k > first { assert nodes[k] == tail[k - first - 1]; }
      }
      assert InPlaceAt(nodes, selected, hidden, first + 1 + f);
    }
  }

  lemma HeadNamed(x: Node, rest: seq<Node>, own: nat)
    requires Named(rest, own) && x.seqNo != 0 && x.seqNo != own
    ensures Named([x] + rest, own)
  {
    var all := [x] + rest;
    assert forall k :: 1 <= k < |all| ==> all[k] == rest[k - 1];
  }

  lemma VisibleHead(x: Node, rest: seq<Node>, selected: set<nat>, n: Node)
    requires Named(rest, n.seqNo) && x.seqNo != 0 && x.seqNo != n.seqNo && x.seqNo in selected
    ensures [n] + Without(rest, selected) == Rewrite([x] + rest, selected, n)
  {
    HeadNamed(x, rest, n.seqNo);
    DropHead(x, rest, selected);
    SelectedHead([x] + rest, selected, n);
  }

  /** What is left to compare behind the unselected beginning. */
  lemma HeadsAgree(x: Node, rest: seq<Node>, selected: set<nat>, hidden: set<nat>, n: Node)
    requires Named(rest, n.seqNo) && x.seqNo != 0 && x.seqNo != n.seqNo && x.seqNo in selected
    ensures [n] + Without(rest, selected) == Rewrite((if x.seqNo in hidden then [] else [x]) + rest, selected, n)
       <==> x.seqNo !in hidden || (|rest| > 0 && rest[0].seqNo in selected)
  {
    if x.seqNo in hidden {
      assert [] + rest == rest;
      HeadDecides(rest, selected, n);
    } else {
      VisibleHead(x, rest, selected, n);
    }
  }

  lemma InPlaceExactly(nodes: seq<Node>, selected: set<nat>, hidden: set<nat>, n: Node, first: nat)
    requires Named(nodes, n.seqNo) && first < |nodes| && nodes[first].seqNo in selected
    requires forall k :: 0 <= k < first ==> nodes[k].seqNo !in selected
    ensures var rest := Without(nodes[first + 1..], hidden);
            SummaryInPlace(nodes, selected, hidden)
            <==> nodes[first].seqNo !in hidden || (|rest| > 0 && rest[0].seqNo in selected)
  {
    if nodes[first].seqNo in hidden {
      BehindHidden(nodes, selected, hidden, n, first);
    } else {
      assert InPlaceAt(nodes, selected, hidden, first);
    }
  }

  lemma TailNamed(nodes: seq<Node>, hidden: set<nat>, own: nat, first: nat)
    requires Named(nodes, own) && first < |nodes|
    ensures Named(Without(nodes[first + 1..], hidden), own)
  {
    var rest := nodes[first + 1..];
    assert forall k :: 0 <= k < |rest| ==> rest[k] == nodes[first + 1 + k];
    WithoutNamed(rest, hidden, own);
  }

  /** Hiding before the rewrite and after it give the same list exactly when the summary stands
      where the first visible selected node stood. */
  lemma OrdersAgreeExactly(nodes: seq<Node>, selected: set<nat>, hidden: set<nat>, n: Node)
    requires Named(nodes, n.seqNo) && n.seqNo !in hidden && AnySelected(nodes, selected)
    ensures Without(Rewrite(nodes, selected, n), hidden - selected) == Rewrite(Without(nodes, hidden), selected, n)
       <==> SummaryInPlace(nodes, selected, hidden)
  {
    var first := FirstSelected(nodes, selected);
    var rest := Without(nodes[first + 1..], hidden);
    RewriteThenHide(nodes, selected, hidden, n, first);
    HideThenRewrite(nodes, selected, hidden, n, first);
    TailNamed(nodes, hidden, n.seqNo, first);
    HeadsAgree(nodes[first], rest, selected, hidden, n);
    InPlaceExactly(nodes, selected, hidden, n, first);
    SamePrefix(Without(nodes[..first], hidden), [n] + Without(rest, selected),
               Rewrite((if nodes[first].seqNo in hidden then [] else [nodes[first]]) + rest, selected, n));
  }

  lemma SamePrefix<T>(a: seq<T>, b: seq<T>, c: seq<T>)
    ensures a + b == a + c <==> b == c
  {
    assert (a + b)[|a|..] == b && (a + c)[|a|..] == c;
  }

  // ---------------------------------------------------------------- the visible list after a commit

  lemma ListingNamed(events: seq<Event>, r: Replacement)
    requires Ordered(events) && Applies(events) && FoldedSlots(events).Ok? && forall e :: e in events ==> e.seqNo < r.seqNo
    ensures Named(Listing(events), r.seqNo)
  {
    var l := FoldLedger(events).value;
    var rs := Sealed(l);
    LedgerAlwaysMatches(events);
    SealedSeqs(l, l.order, events);
    SlotsMembers(events, ByReplacementSeq(rs));
    FoldMembers(SlotsOf(events), rs);
    var folded := FoldedSlots(events).value;
    forall x | x in folded ensures x.seqNo != 0 && x.seqNo != r.seqNo {
      if x in SlotsOf(events) {
        var e :| e in events && e.seqNo == x.seqNo;
      } else {
        var q :| q in rs && x == SummaryNode(q);
        var e :| e in events && e.payload.SurfaceReplacement? && e.seqNo == q.seqNo;
      }
    }
    WithoutMembers(folded, MetaOf(events).shadowed);
    forall k | 0 <= k < |Listing(events)| ensures Listing(events)[k] in folded {
      assert Listing(events)[k] in Listing(events);
    }
  }

  lemma SelectionOnListing(events: seq<Event>, retain: int, r: Replacement)
    requires ReadyToReplace(events, retain, r)
    ensures Applies(events) && FoldedSlots(events).Ok? && AnySelected(Listing(events), SourceSet(r.sourceSeqs))
  {
    ProjectByListing(events);
    SelectionIsOnList(events, retain, r);
    var shadowed := MetaOf(events).shadowed;
    var cut, p := SelectionFacts(events, retain, shadowed, r.sourceSeqs);
    SelectedWithout(FoldedSlots(events).value, SourceSet(r.sourceSeqs), r.seqNo, shadowed);
  }

  lemma SummaryIsNoCatalog(events: seq<Event>, shadowed: set<nat>, r: Replacement)
    requires forall e :: e in events ==> e.seqNo < r.seqNo
    ensures r.seqNo !in Superseded(events, shadowed)
  {
  }

  /** The visible list itself is rewritten exactly when the summary is in place: some visible node
      is selected, and no visible unselected node precedes the first such node behind a selected
      superseded catalog. */
  lemma VisibleListExactly(events: seq<Event>, retain: int, owner: string, first: nat, r: Replacement, tx: string)
    requires ReadyToCommit(events, retain, first, r, tx) && Linked(events) && UniqueCalls(events)
    ensures Project(events + CommitEvents(owner, first, r, tx)).Ok?
    ensures Project(events + CommitEvents(owner, first, r, tx)).value.nodes
         == Rewrite(Project(events).value.nodes, SourceSet(r.sourceSeqs), SummaryNode(r))
       <==> SummaryInPlace(Listing(events), SourceSet(r.sourceSeqs), Superseded(events, Project(events).value.shadowed))
  {
    CommitIsRewrite(events, retain, owner, first, r, tx);
    SelectionOnListing(events, retain, r);
    ProjectByListing(events);
    ListingNamed(events, r);
    SummaryIsNoCatalog(events, MetaOf(events).shadowed, r);
    OrdersAgreeExactly(Listing(events), SourceSet(r.sourceSeqs), Superseded(events, MetaOf(events).shadowed), SummaryNode(r));
  }

  /** In particular when the selection touches no superseded catalog. */
  lemma VisibleListIsRewritten(events: seq<Event>, retain: int, owner: string, first: nat, r: Replacement, tx: string)
    requires ReadyToCommit(events, retain, first, r, tx) && Linked(events) && UniqueCalls(events)
    requires SourceSet(r.sourceSeqs) !! Superseded(events, Project(events).value.shadowed)
    ensures Project(events + CommitEvents(owner, first, r, tx)).Ok?
    ensures Project(events + CommitEvents(owner, first, r, tx)).value.nodes
         == Rewrite(Project(events).value.nodes, SourceSet(r.sourceSeqs), SummaryNode(r))
  {
    VisibleListExactly(events, retain, owner, first, r, tx);
    SelectionOnListing(events, retain, r);
    var f := FirstSelected(Listing(events), SourceSet(r.sourceSeqs));
    assert InPlaceAt(Listing(events), SourceSet(r.sourceSeqs), Superseded(events, Project(events).value.shadowed), f);
  }

  // ---------------------------------------------------------------- a log where the orders differ

  function At(seqNo: nat, payload: Payload): Event { Event(seqNo, NoId, "s", "r", "t", "st", "", [], payload) }

  const CATALOG := At(1, SkillCatalog("old"))
  const SKILL := At(2, SkillInvocation("skill"))
  const MESSAGE := At(3, UserMessage("u"))
  const NEWER := At(4, SkillCatalog("new"))

  /** A superseded catalog, a protected skill, a message, and the catalog that supersedes. */
  const LOG := [CATALOG, SKILL, MESSAGE, NEWER]
  const CHOSEN := Replacement(1, [1, 3], "summary", "f", 7)

  lemma LogMembers()
    ensures LOG == [] + [CATALOG] + [SKILL] + [MESSAGE] + [NEWER] && LOG[..3] == [] + [CATALOG] + [SKILL] + [MESSAGE]
    ensures Ordered(LOG) && Uncompacted(LOG)
    ensures forall e :: e in LOG <==> e == CATALOG || e == SKILL || e == MESSAGE || e == NEWER
  {
    assert LOG[0] in LOG && LOG[1] in LOG && LOG[2] in LOG && LOG[3] in LOG;
  }

  lemma LogSurface()
    ensures SurfaceEvents(LOG, {}) == LOG
  {
    LogMembers();
    SurfaceSnoc([], CATALOG, {});
    SurfaceSnoc([] + [CATALOG], SKILL, {});
    SurfaceSnoc([] + [CATALOG] + [SKILL], MESSAGE, {});
    SurfaceSnoc([] + [CATALOG] + [SKILL] + [MESSAGE], NEWER, {});
  }

  lemma LogUnprotected()
    ensures Unprotected(LOG[..3], {2}) == [1, 3]
  {
    LogMembers();
    UnprotectedSnoc([], CATALOG, {2});
    UnprotectedSnoc([] + [CATALOG], SKILL, {2});
    UnprotectedSnoc([] + [CATALOG] + [SKILL], MESSAGE, {2});
  }

  lemma LogSelection()
    ensures IsSelection(LOG, 1, {}, [1, 3])
  {
    LogSurface();
    LogUnprotected();
    LogProtected();
    assert SelectedBy(LOG, 3, 3, {2}, [1, 3]);
    assert SelectedFrom(LOG, 3, [1, 3]);
  }

  lemma LogProtected()
    ensures LeastProtected(LOG, {2}) && GreatestCut(LOG, 3, 3)
  {
    LogMembers();
    Unpaired(LOG, 3, {2});
    assert HasSeeds(LOG, {2});
    forall q | HasSeeds(LOG, q) ensures {2} <= q {
      assert SKILL in LOG;
    }
  }

  lemma LogSlots()
    ensures Slots(LOG, map[]) == [Node(1, Render(CATALOG.payload)), Node(2, Render(SKILL.payload)),
                                  Node(3, Render(MESSAGE.payload)), Node(4, Render(NEWER.payload))]
  {
    LogMembers();
    SlotsSnoc([], CATALOG, map[]);
    SlotsSnoc([] + [CATALOG], SKILL, map[]);
    SlotsSnoc([] + [CATALOG] + [SKILL], MESSAGE, map[]);
    SlotsSnoc([] + [CATALOG] + [SKILL] + [MESSAGE], NEWER, map[]);
  }

  lemma LogSuperseded()
    ensures Superseded(LOG, {}) == {1}
  {
    LogMembers();
    LatestIsNewest(LOG, {});
    assert LatestCatalog(LOG, {}) == 4;
    assert SkippedCatalog(CATALOG, 4, {});
  }

  lemma LogIsReady()
    ensures ReadyToCommit(LOG, 1, 5, CHOSEN, "compact-1") && Linked(LOG) && UniqueCalls(LOG)
    ensures Listing(LOG) == Slots(LOG, map[]) && Project(LOG).value.shadowed == {}
  {
    LogMembers();
    Unanswered(LOG, {});
    UncompactedProjects(LOG);
    LogSelection();
  }

  /** The summary takes the place of the hidden catalog, before the protected skill, whereas the
      first message it replaces stood behind the skill. */
  lemma SummaryMovesForward(owner: string)
    ensures ReadyToCommit(LOG, 1, 5, CHOSEN, "compact-1")
    ensures !SummaryInPlace(Listing(LOG), SourceSet(CHOSEN.sourceSeqs), Superseded(LOG, {}))
    ensures Project(LOG + CommitEvents(owner, 5, CHOSEN, "compact-1")).Ok?
    ensures Project(LOG + CommitEvents(owner, 5, CHOSEN, "compact-1")).value.nodes
         != Rewrite(Project(LOG).value.nodes, SourceSet(CHOSEN.sourceSeqs), SummaryNode(CHOSEN))
  {
    LogIsReady();
    LogSlots();
    LogSuperseded();
    NotInPlace(Listing(LOG));
    VisibleListExactly(LOG, 1, owner, 5, CHOSEN, "compact-1");
  }

  lemma NotInPlace(nodes: seq<Node>)
    requires |nodes| == 4 && nodes[0].seqNo == 1 && nodes[1].seqNo == 2 && nodes[2].seqNo == 3 && nodes[3].seqNo == 4
    ensures !SummaryInPlace(nodes, SourceSet([1, 3]), {1})
  {
    assert 1 in [1, 3] && 2 !in [1, 3] && 4 !in [1, 3];
    assert AnyBefore(nodes, SourceSet([1, 3]), 1);
  }
}
