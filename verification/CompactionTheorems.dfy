/** The main results about compaction: sealing a selection is a list rewrite, and an unsealed
    transaction is invisible. */
module CompactionTheorems {
  import opened Events
  import opened Surface
  import opened ProjectionLemmas
  import opened Selection
  import opened Compaction

  /** The rewritten list before hiding superseded catalogs and shadowed nodes. */
  ghost function FoldedSlots(events: seq<Event>): Result<seq<Node>> {
    var ledger :- FoldLedger(events);
    var rs := Sealed(ledger);
    FoldAll(Slots(events, ByReplacementSeq(rs)), rs)
  }

  ghost function SlotsOf(events: seq<Event>): seq<Node>
    requires FoldLedger(events).Ok?
  {
    Slots(events, ByReplacementSeq(Sealed(FoldLedger(events).value)))
  }

  ghost predicate Applies(events: seq<Event>) {
    FoldLedger(events).Ok? && ApplyAll(Sealed(FoldLedger(events).value)).Ok?
  }

  ghost function MetaOf(events: seq<Event>): Meta
    requires Applies(events)
  {
    ApplyAll(Sealed(FoldLedger(events).value)).value
  }

  /** Everything a compaction can choose from, in display order: the visible nodes together with
      the superseded catalogs, which are hidden from the model but still replaceable. */
  ghost function Listing(events: seq<Event>): seq<Node> {
    if Applies(events) && FoldedSlots(events).Ok? then Without(FoldedSlots(events).value, MetaOf(events).shadowed) else []
  }

  lemma SupersededApart(events: seq<Event>)
    requires Ordered(events) && Applies(events)
    ensures Untouched(Sealed(FoldLedger(events).value), Superseded(events, MetaOf(events).shadowed))
  {
    var l := FoldLedger(events).value;
    var rs := Sealed(l);
    var hidden := Superseded(events, MetaOf(events).shadowed);
    LedgerAlwaysMatches(events);
    SealedSeqs(l, l.order, events);
    AppliedSources(rs);
    forall r | r in rs ensures SourceSet(r.sourceSeqs) !! hidden && r.seqNo !in hidden {
      var e :| e in events && e.payload.SurfaceReplacement? && e.seqNo == r.seqNo;
      if r.seqNo in hidden {
        var c :| c in events && c.seqNo == r.seqNo && c.payload.SkillCatalog?;
        DistinctSeqs(events, c, e);
        assert false;
      }
    }
  }

  /** The projection is the listing without superseded catalogs. */
  lemma ProjectByListing(events: seq<Event>)
    requires Ordered(events) && Applies(events)
    ensures Project(events).Ok? <==> ValidPairing(events, MetaOf(events).shadowed) && FoldedSlots(events).Ok?
    ensures Project(events).Ok? ==>
      var m := MetaOf(events);
      Project(events).value == Projection(m.generation, m.shadowed, m.summary, m.fingerprint,
                                          Without(Listing(events), Superseded(events, m.shadowed)))
  {
    var rs := Sealed(FoldLedger(events).value);
    var m := MetaOf(events);
    var hidden := Superseded(events, m.shadowed);
    var done := ByReplacementSeq(rs);
    var slots := Slots(events, done);
    SupersededApart(events);
    forall e | e in events
      ensures e.seqNo > 0 && (e.seqNo in hidden <==> SkippedCatalog(e, LatestCatalog(events, m.shadowed), m.shadowed))
    {
      if e.seqNo in hidden {
        var c :| c in events && c.seqNo == e.seqNo && SkippedCatalog(c, LatestCatalog(events, m.shadowed), m.shadowed);
        DistinctSeqs(events, c, e);
      }
    }
    BuildIsSlotsWithout(events, LatestCatalog(events, m.shadowed), m.shadowed, done, hidden);
    FoldAllWithout(slots, rs, hidden);
    if FoldedSlots(events).Ok? {
      var folded := FoldedSlots(events).value;
      WithoutTwice(folded, hidden, m.shadowed);
      WithoutTwice(folded, m.shadowed, hidden);
      assert hidden + m.shadowed == m.shadowed + hidden;
    }
  }

  // ---------------------------------------------------------------- the commit as a rewrite

  /** A replacement one generation up whose sources are the current selection. */
  ghost predicate ReadyToReplace(events: seq<Event>, retain: int, r: Replacement) {
    && Ordered(events) && Project(events).Ok?
    && ReplacementsSealed(events)
    && (forall e :: e in events ==> e.seqNo < r.seqNo)
    && r.seqNo !in Project(events).value.shadowed
    && r.generation == Project(events).value.generation + 1
    && r.sourceSeqs != []
    && IsSelection(events, retain, Project(events).value.shadowed, r.sourceSeqs)
  }

  /** A compaction ready to be committed after `events` as a fresh transaction. */
  ghost predicate ReadyToCommit(events: seq<Event>, retain: int, first: nat, r: Replacement, tx: string) {
    && ReadyToReplace(events, retain, r)
    && FreshTransaction(events, tx)
    && (forall e :: e in events ==> e.seqNo < first)
    && r.seqNo == first + 2
  }

  /** What the events appended to `events` achieve when they seal `r` and do nothing else. */
  ghost predicate Replaces(events: seq<Event>, after: seq<Event>, r: Replacement)
    requires FoldLedger(events).Ok?
  {
    && Ordered(after) && FoldLedger(after).Ok?
    && Sealed(FoldLedger(after).value) == Sealed(FoldLedger(events).value) + [r]
    && Slots(after, ByReplacementSeq(Sealed(FoldLedger(events).value) + [r])) == SlotsOf(events) + [SummaryNode(r)]
    && (forall shadowed :: ValidPairing(after, shadowed) <==> ValidPairing(events, shadowed))
    && (forall shadowed :: Superseded(after, shadowed) == Superseded(events, shadowed))
  }

  /** What a selection is made of, in terms of the log. */
  lemma SelectionFacts(events: seq<Event>, retain: int, shadowed: set<nat>, out: seq<nat>)
    returns (cut: nat, p: set<nat>)
    requires Ordered(events) && IsSelection(events, retain, shadowed, out) && out != []
    ensures cut <= |SurfaceEvents(events, shadowed)|
    ensures PairClosed(SurfaceEvents(events, shadowed), cut) && LeastProtected(SurfaceEvents(events, shadowed), p)
    ensures out == Unprotected(SurfaceEvents(events, shadowed)[..cut], p)
    ensures ValidSources(out)
    ensures forall x :: x in out ==> x !in shadowed && exists e :: e in events && e.seqNo == x && IsSurface(e.payload)
  {
    var surface := SurfaceEvents(events, shadowed);
    SurfaceOrdered(events, shadowed);
    SurfaceMembers(events, shadowed);
    var start := |surface| - RetainedCount(retain, |surface|);
    assert SelectedFrom(surface, start, out);
    cut, p :| SelectedBy(surface, start, cut, p, out);
    UnprotectedOrdered(surface[..cut], p);
    UnprotectedMembers(surface[..cut], p);
    forall x | x in out ensures x !in shadowed && exists e :: e in events && e.seqNo == x && IsSurface(e.payload) {
      var k :| 0 <= k < cut && surface[..cut][k].seqNo == x;
      assert surface[k] in surface && surface[k] in events;
    }
  }

  /** The least protected set holds only skill invocations, results and what results answer. */
  lemma ProtectedKinds(events: seq<Event>, shadowed: set<nat>, p: set<nat>, e: Event)
    requires Ordered(events) && Linked(events) && LeastProtected(SurfaceEvents(events, shadowed), p)
    requires e in events && e.payload.SkillCatalog?
    ensures e.seqNo !in p
  {
    var surface := SurfaceEvents(events, shadowed);
    SurfaceMembers(events, shadowed);
    var q := p - {e.seqNo};
    forall x | x in surface && x.payload.ToolResult? ensures e.seqNo !in x.sources && e.seqNo != x.seqNo {
      if e.seqNo in x.sources {
        assert AnsweredBy(events, x, e.seqNo);
        var a :| a in events && a.seqNo == e.seqNo && a.payload.AssistantMessage?;
        DistinctSeqs(events, a, e);
        assert false;
      }
      if e.seqNo == x.seqNo { DistinctSeqs(events, x, e); assert false; }
    }
    forall x | x in surface && x.payload.SkillInvocation? ensures x.seqNo != e.seqNo {
      if e.seqNo == x.seqNo { DistinctSeqs(events, x, e); assert false; }
    }
    assert HasSeeds(surface, q);
    forall x | x in surface ensures LinkHolds(x, q) {
      assert LinkHolds(x, p);
    }
    assert LinkClosed(surface, q);
  }

  /** A selection that takes a visible catalog takes all older visible catalogs with it, so the
      catalogs that stay superseded are those the selection left alone. */
  lemma SupersededAfter(events: seq<Event>, retain: int, shadowed: set<nat>, out: seq<nat>)
    requires Ordered(events) && Linked(events) && IsSelection(events, retain, shadowed, out) && out != []
    ensures Superseded(events, shadowed + SourceSet(out)) == Superseded(events, shadowed) - SourceSet(out)
  {
    var after := shadowed + SourceSet(out);
    var cut, p := SelectionFacts(events, retain, shadowed, out);
    var latest, latest' := LatestCatalog(events, shadowed), LatestCatalog(events, after);
    LatestIsNewest(events, shadowed);
    LatestIsNewest(events, after);
    forall a, b | a in events && b in events && a.payload.SkillCatalog? && b.payload.SkillCatalog?
      && a.seqNo !in shadowed && b.seqNo in out && a.seqNo < b.seqNo
      ensures a.seqNo in out
    {
      OlderCatalogSelected(events, shadowed, cut, p, a, b);
    }
    forall x ensures x in Superseded(events, after) <==> x in Superseded(events, shadowed) - SourceSet(out) {
      if x in Superseded(events, after) {
        var e :| e in events && SkippedCatalog(e, latest', after) && e.seqNo == x;
        assert e.seqNo <= latest' <= latest;
        assert SkippedCatalog(e, latest, shadowed);
      }
      if x in Superseded(events, shadowed) - SourceSet(out) {
        var e :| e in events && SkippedCatalog(e, latest, shadowed) && e.seqNo == x;
        assert latest !in out;
        assert latest' == latest;
        assert SkippedCatalog(e, latest', after);
      }
    }
  }

  lemma OlderCatalogSelected(events: seq<Event>, shadowed: set<nat>, cut: nat, p: set<nat>, a: Event, b: Event)
    requires Ordered(events) && Linked(events) && LeastProtected(SurfaceEvents(events, shadowed), p)
    requires cut <= |SurfaceEvents(events, shadowed)|
    requires a in events && b in events && a.payload.SkillCatalog? && b.payload.SkillCatalog?
    requires a.seqNo !in shadowed && a.seqNo < b.seqNo
    requires b.seqNo in Unprotected(SurfaceEvents(events, shadowed)[..cut], p)
    ensures a.seqNo in Unprotected(SurfaceEvents(events, shadowed)[..cut], p)
  {
    var surface := SurfaceEvents(events, shadowed);
    SurfaceMembers(events, shadowed);
    SurfaceOrdered(events, shadowed);
    ProtectedKinds(events, shadowed, p, a);
    var k := SelectedPosition(surface, cut, p, b.seqNo);
    var m := SurfacePosition(surface, a);
    assert m < k;
    UnprotectedMembers(surface[..cut], p);
    assert surface[..cut][m] == a;
  }

  /** Committing a fresh transaction seals its replacement and does nothing else. */
  lemma CommitReplaces(events: seq<Event>, owner: string, first: nat, r: Replacement, tx: string)
    requires Ordered(events) && FreshTransaction(events, tx) && ValidSources(r.sourceSeqs)
    requires 0 < first && r.seqNo == first + 2 && forall e :: e in events ==> e.seqNo < first
    ensures Replaces(events, events + CommitEvents(owner, first, r, tx), r)
  {
    var rs := Sealed(FoldLedger(events).value);
    var after := events + CommitEvents(owner, first, r, tx);
    CommitSeals(events, owner, first, r, tx);
    CommitOrdered(events, owner, first, r, tx);
    assert (rs + [r])[..|rs|] == rs;
    CommitSlots(events, owner, first, r, tx, ByReplacementSeq(rs + [r]));
    SlotsSame(events, ByReplacementSeq(rs), ByReplacementSeq(rs + [r]));
    forall shadowed ensures ValidPairing(after, shadowed) <==> ValidPairing(events, shadowed) {
      CommitIsNeutral(events, owner, first, r, tx, shadowed);
    }
    forall shadowed ensures Superseded(after, shadowed) == Superseded(events, shadowed) {
      CommitSupersedes(events, owner, first, r, tx, shadowed);
    }
  }

  /** A replacement adds its summary's slot at the end and one rewrite. */
  lemma ReplaceAddsSlot(events: seq<Event>, after: seq<Event>, r: Replacement)
    requires Applies(events) && Replaces(events, after, r)
    ensures FoldedSlots(after) == FoldAll(SlotsOf(events) + [SummaryNode(r)], Sealed(FoldLedger(events).value) + [r])
  {
  }

  /** The older rewrites leave the appended slot alone. */
  lemma OlderRewritesKeepSlot(events: seq<Event>, n: Node)
    requires Applies(events) && FoldedSlots(events).Ok?
    requires n.seqNo !in MetaOf(events).shadowed && forall e :: e in events ==> e.seqNo < n.seqNo
    ensures FoldAll(SlotsOf(events) + [n], Sealed(FoldLedger(events).value)) == Ok(FoldedSlots(events).value + [n])
  {
    var l := FoldLedger(events).value;
    var rs := Sealed(l);
    LedgerAlwaysMatches(events);
    SealedSeqs(l, l.order, events);
    AppliedSources(rs);
    assert Untouched(rs, {n.seqNo});
    FoldAllAppend(Slots(events, ByReplacementSeq(rs)), n, rs);
  }

  /** Every visible event that renders is on the folded list. */
  lemma SourceOnList(events: seq<Event>, e: Event)
    requires Applies(events) && FoldedSlots(events).Ok? && ReplacementsSealed(events)
    requires e in events && IsSurface(e.payload) && e.seqNo !in MetaOf(events).shadowed
    ensures HasNode(FoldedSlots(events).value, e.seqNo)
  {
    var rs := Sealed(FoldLedger(events).value);
    AppliedSources(rs);
    SlotsMembers(events, ByReplacementSeq(rs));
    VisibleKeepsNode(Slots(events, ByReplacementSeq(rs)), rs, e.seqNo, MetaOf(events).shadowed);
  }

  lemma FoldAllSnoc(ns: seq<Node>, rs: seq<Replacement>, r: Replacement)
    requires FoldAll(ns, rs).Ok?
    ensures FoldAll(ns, rs + [r]) == FoldOne(FoldAll(ns, rs).value, r)
  {
    assert (rs + [r])[..|rs|] == rs;
  }

  lemma NodeIsSelected(ns: seq<Node>, seqNo: nat, selected: set<nat>)
    requires HasNode(ns, seqNo) && seqNo in selected
    ensures AnySelected(ns, selected)
  {
    var node :| node in ns && node.seqNo == seqNo;
    var at :| 0 <= at < |ns| && ns[at] == node;
  }

  lemma LastFold(ns: seq<Node>, rs: seq<Replacement>, r: Replacement, folded: seq<Node>)
    requires FoldAll(ns, rs) == Ok(folded + [SummaryNode(r)])
    requires AnySelected(folded, SourceSet(r.sourceSeqs))
    ensures FoldAll(ns, rs + [r]) == Ok(Rewrite(folded, SourceSet(r.sourceSeqs), SummaryNode(r)))
  {
    var n := SummaryNode(r);
    var selected := SourceSet(r.sourceSeqs);
    FoldAllSnoc(ns, rs, r);
    AnySelectedSnoc(folded, n, selected);
    calc {
      FoldOne(folded + [n], r);
      Ok(Rewrite(folded + [n], selected, n));
      { RewriteSnoc(folded, n, selected, n); }
      Ok(Rewrite(folded, selected, n) + []);
      { assert Rewrite(folded, selected, n) + [] == Rewrite(folded, selected, n); }
      Ok(Rewrite(folded, selected, n));
    }
  }

  lemma SelectionIsOnList(events: seq<Event>, retain: int, r: Replacement)
    requires ReadyToReplace(events, retain, r) && Applies(events) && FoldedSlots(events).Ok?
    ensures ValidSources(r.sourceSeqs)
    ensures AnySelected(FoldedSlots(events).value, SourceSet(r.sourceSeqs))
    ensures exists e :: e in events && e.seqNo in r.sourceSeqs
  {
    var x := r.sourceSeqs[0];
    var cut, p := SelectionFacts(events, retain, MetaOf(events).shadowed, r.sourceSeqs);
    assert x in r.sourceSeqs;
    var e :| e in events && e.seqNo == x && IsSurface(e.payload);
    SourceOnList(events, e);
    NodeIsSelected(FoldedSlots(events).value, x, SourceSet(r.sourceSeqs));
  }

  /** The folded slots after a replacement: one more rewrite of the old ones. */
  lemma ReplaceFoldsOnce(events: seq<Event>, after: seq<Event>, retain: int, r: Replacement)
    requires ReadyToReplace(events, retain, r) && Replaces(events, after, r)
    ensures Applies(events) && FoldedSlots(events).Ok?
    ensures FoldedSlots(after) == Ok(Rewrite(FoldedSlots(events).value, SourceSet(r.sourceSeqs), SummaryNode(r)))
  {
    ProjectByListing(events);
    SelectionIsOnList(events, retain, r);
    ReplaceAddsSlot(events, after, r);
    OlderRewritesKeepSlot(events, SummaryNode(r));
    LastFold(SlotsOf(events) + [SummaryNode(r)], Sealed(FoldLedger(events).value), r, FoldedSlots(events).value);
  }

  /** What the model sees of a sealed replacement, whatever events sealed it: the log still
      projects, one generation up, with the sources shadowed, and the listing is the old listing
      with all sources removed and one summary where the first of them stood. */
  ghost predicate IsRewrittenBy(events: seq<Event>, after: seq<Event>, r: Replacement)
    requires Project(events).Ok?
  {
    && Project(after).Ok?
    && Project(after).value.generation == Project(events).value.generation + 1
    && Project(after).value.shadowed == Project(events).value.shadowed + SourceSet(r.sourceSeqs)
    && Project(after).value.summary == r.summary
    && Listing(after) == Rewrite(Listing(events), SourceSet(r.sourceSeqs), SummaryNode(r))
    && Project(after).value.nodes == Without(Rewrite(Listing(events), SourceSet(r.sourceSeqs), SummaryNode(r)),
                                             Superseded(events, Project(events).value.shadowed) - SourceSet(r.sourceSeqs))
  }

  lemma ReplaceMeta(events: seq<Event>, after: seq<Event>, r: Replacement)
    requires Applies(events) && Replaces(events, after, r) && r.generation == MetaOf(events).generation + 1
    ensures Applies(after) && MetaOf(after).generation == MetaOf(events).generation + 1
    ensures MetaOf(after).shadowed == MetaOf(events).shadowed + SourceSet(r.sourceSeqs) && MetaOf(after).summary == r.summary
  {
    ApplySnoc(Sealed(FoldLedger(events).value), r);
  }

  lemma ReplacementIsRewrite(events: seq<Event>, after: seq<Event>, retain: int, r: Replacement)
    requires ReadyToReplace(events, retain, r) && Linked(events) && UniqueCalls(events) && Replaces(events, after, r)
    ensures IsRewrittenBy(events, after, r)
  {
    var m := MetaOf(events);
    ProjectByListing(events);
    var cut, p := SelectionFacts(events, retain, m.shadowed, r.sourceSeqs);
    ReplaceMeta(events, after, r);
    // Pairing and catalogs.
    SelectionKeepsPairing(events, m.shadowed, cut, p);
    SupersededAfter(events, retain, m.shadowed, r.sourceSeqs);
    // The list.
    ReplaceFoldsOnce(events, after, retain, r);
    ProjectByListing(after);
    ListingAfter(FoldedSlots(events).value, SourceSet(r.sourceSeqs), SummaryNode(r), m.shadowed);
  }

  /** Committing a compaction is a list rewrite. */
  lemma CommitIsRewrite(events: seq<Event>, retain: int, owner: string, first: nat, r: Replacement, tx: string)
    requires ReadyToCommit(events, retain, first, r, tx) && Linked(events) && UniqueCalls(events)
    ensures IsRewrittenBy(events, events + CommitEvents(owner, first, r, tx), r)
  {
    ProjectByListing(events);
    SelectionIsOnList(events, retain, r);
    CommitReplaces(events, owner, first, r, tx);
    ReplacementIsRewrite(events, events + CommitEvents(owner, first, r, tx), retain, r);
  }

  lemma CommitOrdered(events: seq<Event>, owner: string, first: nat, r: Replacement, tx: string)
    requires Ordered(events) && r.seqNo == first + 2 && 0 < first
    requires forall e :: e in events ==> e.seqNo < first
    ensures Ordered(events + CommitEvents(owner, first, r, tx))
  {
    forall i | 0 <= i < |events| ensures events[i].seqNo < first {
      assert events[i] in events;
    }
  }

  lemma CommitSupersedes(events: seq<Event>, owner: string, first: nat, r: Replacement, tx: string, shadowed: set<nat>)
    ensures Superseded(events + CommitEvents(owner, first, r, tx), shadowed) == Superseded(events, shadowed)
  {
    CommitIsNeutral(events, owner, first, r, tx, shadowed);
  }

  lemma ListingAfter(folded: seq<Node>, selected: set<nat>, n: Node, shadowed: set<nat>)
    requires selected !! shadowed && n.seqNo !in shadowed && n.seqNo !in selected
    ensures Without(Rewrite(folded, selected, n), shadowed + selected) == Rewrite(Without(folded, shadowed), selected, n)
  {
    RewriteWithout(folded, selected, n, shadowed);
    RewriteMembers(folded, selected, n);
    WithoutSame(Rewrite(folded, selected, n), shadowed + selected, shadowed);
  }

  // ---------------------------------------------------------------- unsealed transactions

  /** The ledgers an interrupted compaction passes through, none of which seals it. */
  function LedgerWith(l: Ledger, tx: string, t: Transaction): Ledger {
    Ledger(l.transactions[tx := t], if tx in l.transactions then l.order else l.order + [tx])
  }

  lemma StartIsInvisible(events: seq<Event>, owner: string, first: nat, r: Replacement, tx: string)
    requires FreshTransaction(events, tx) && ValidSources(r.sourceSeqs)
    ensures FoldLedger(events + [CompactionStartEvent(owner, first, r, tx)]) == Ok(LedgerWith(FoldLedger(events).value, tx, Started(r)))
    ensures Project(events + [CompactionStartEvent(owner, first, r, tx)]) == Project(events)
  {
    var l := FoldLedger(events).value;
    LedgerAfterStart(l, owner, first, r, tx);
    FoldLedgerSnoc(events, CompactionStartEvent(owner, first, r, tx));
    UnsealedSame(events, l, LedgerWith(l, tx, Started(r)), tx);
    IgnoredEvent(events, CompactionStartEvent(owner, first, r, tx), l, LedgerWith(l, tx, Started(r)));
  }

  lemma SummaryIsInvisible(events: seq<Event>, owner: string, first: nat, r: Replacement, tx: string)
    requires FreshTransaction(events, tx) && ValidSources(r.sourceSeqs)
    ensures var log := events + [CompactionStartEvent(owner, first, r, tx)] + [CompactionSummaryEvent(owner, first + 1, r, tx)];
            FoldLedger(log) == Ok(LedgerWith(FoldLedger(events).value, tx, Summarized(r))) && Project(log) == Project(events)
  {
    var l := FoldLedger(events).value;
    var log := events + [CompactionStartEvent(owner, first, r, tx)];
    StartIsInvisible(events, owner, first, r, tx);
    StartedSummary(l, log, owner, first + 1, r, tx);
    UnsealedSame(events, l, LedgerWith(l, tx, Started(r)), tx);
    UnsealedSame(events, l, LedgerWith(l, tx, Summarized(r)), tx);
    SummaryIgnored(log, LedgerWith(l, tx, Started(r)), LedgerWith(l, tx, Summarized(r)), owner, first + 1, r, tx);
  }

  lemma StartedSummary(l: Ledger, log: seq<Event>, owner: string, at: nat, r: Replacement, tx: string)
    requires tx != "" && ValidSources(r.sourceSeqs) && FoldLedger(log) == Ok(LedgerWith(l, tx, Started(r)))
    ensures FoldLedger(log + [CompactionSummaryEvent(owner, at, r, tx)]) == Ok(LedgerWith(l, tx, Summarized(r)))
  {
    var l1 := LedgerWith(l, tx, Started(r));
    LedgerAfterSummary(l1, owner, at, r, tx);
    assert l1.(transactions := l1.transactions[tx := Summarized(r)]) == LedgerWith(l, tx, Summarized(r));
    FoldLedgerSnoc(log, CompactionSummaryEvent(owner, at, r, tx));
  }

  lemma SummaryIgnored(log: seq<Event>, before: Ledger, after: Ledger, owner: string, at: nat, r: Replacement, tx: string)
    requires FoldLedger(log) == Ok(before) && FoldLedger(log + [CompactionSummaryEvent(owner, at, r, tx)]) == Ok(after)
    requires Sealed(before) == Sealed(after)
    ensures Project(log + [CompactionSummaryEvent(owner, at, r, tx)]) == Project(log)
  {
    MarkerSlots(owner, at, r, tx, ByReplacementSeq(Sealed(after)));
    IgnoredEvent(log, CompactionSummaryEvent(owner, at, r, tx), before, after);
  }

  lemma ReplacementIsInvisible(events: seq<Event>, owner: string, first: nat, r: Replacement, tx: string)
    requires FreshTransaction(events, tx) && ValidSources(r.sourceSeqs)
    requires r.seqNo == first + 2 && forall e :: e in events ==> e.seqNo < first
    ensures Project(events + [CompactionStartEvent(owner, first, r, tx)] + [CompactionSummaryEvent(owner, first + 1, r, tx)]
                    + [CompactionReplacementEvent(owner, first + 2, r, tx)]) == Project(events)
  {
    var log := events + [CompactionStartEvent(owner, first, r, tx)] + [CompactionSummaryEvent(owner, first + 1, r, tx)];
    SummaryIsInvisible(events, owner, first, r, tx);
    PendingReplacement(events, log, owner, r, tx);
  }

  lemma PendingReplacement(events: seq<Event>, log: seq<Event>, owner: string, r: Replacement, tx: string)
    requires FreshTransaction(events, tx) && ValidSources(r.sourceSeqs)
    requires r.seqNo >= 2 && forall e :: e in events ==> e.seqNo < r.seqNo
    requires FoldLedger(log) == Ok(LedgerWith(FoldLedger(events).value, tx, Summarized(r)))
    ensures Project(log + [CompactionReplacementEvent(owner, r.seqNo, r, tx)]) == Project(log)
  {
    var l := FoldLedger(events).value;
    var e := CompactionReplacementEvent(owner, r.seqNo, r, tx);
    var l2, l3 := LedgerWith(l, tx, Summarized(r)), LedgerWith(l, tx, Replaced(r));
    PendingLedger(l, log, owner, r, tx);
    PendingSealsNothing(events, l, r, tx);
    UnsealedReplacement(events, l, e);
    IgnoredEvent(log, e, l2, l3);
  }

  lemma PendingLedger(l: Ledger, log: seq<Event>, owner: string, r: Replacement, tx: string)
    requires ValidSources(r.sourceSeqs) && tx != "" && r.seqNo >= 2
    requires FoldLedger(log) == Ok(LedgerWith(l, tx, Summarized(r)))
    ensures FoldLedger(log + [CompactionReplacementEvent(owner, r.seqNo, r, tx)]) == Ok(LedgerWith(l, tx, Replaced(r)))
  {
    var l2 := LedgerWith(l, tx, Summarized(r));
    LedgerAfterReplacement(l2, owner, r, tx);
    assert l2.(transactions := l2.transactions[tx := Replaced(r)]) == LedgerWith(l, tx, Replaced(r));
    FoldLedgerSnoc(log, CompactionReplacementEvent(owner, r.seqNo, r, tx));
  }

  lemma PendingSealsNothing(events: seq<Event>, l: Ledger, r: Replacement, tx: string)
    requires FoldLedger(events) == Ok(l) && tx !in l.transactions
    ensures Sealed(LedgerWith(l, tx, Summarized(r))) == Sealed(l)
    ensures Sealed(LedgerWith(l, tx, Replaced(r))) == Sealed(l)
  {
    UnsealedSame(events, l, LedgerWith(l, tx, Summarized(r)), tx);
    UnsealedSame(events, l, LedgerWith(l, tx, Replaced(r)), tx);
  }

  /** An interrupted compaction changes nothing the model sees: any proper prefix of the four
      events of a fresh transaction leaves the projection as it was. */
  lemma UnsealedIsInvisible(events: seq<Event>, owner: string, first: nat, r: Replacement, tx: string, written: nat)
    requires FreshTransaction(events, tx) && ValidSources(r.sourceSeqs)
    requires r.seqNo == first + 2 && (forall e :: e in events ==> e.seqNo < first) && written < 4
    ensures Project(events + CommitEvents(owner, first, r, tx)[..written]) == Project(events)
  {
    CommitPrefixes(events, owner, first, r, tx);
    if written == 1 {
      StartIsInvisible(events, owner, first, r, tx);
    } else if written == 2 {
      SummaryIsInvisible(events, owner, first, r, tx);
    } else if written == 3 {
      ReplacementIsInvisible(events, owner, first, r, tx);
    }
  }

  lemma CommitPrefixes(events: seq<Event>, owner: string, first: nat, r: Replacement, tx: string)
    ensures var commit := CommitEvents(owner, first, r, tx);
            && events + commit[..0] == events
            && events + commit[..1] == events + [commit[0]]
            && events + commit[..2] == events + [commit[0]] + [commit[1]]
            && events + commit[..3] == events + [commit[0]] + [commit[1]] + [commit[2]]
  {
  }

  lemma UnsealedSame(events: seq<Event>, l0: Ledger, l: Ledger, tx: string)
    requires FoldLedger(events) == Ok(l0) && tx !in l0.transactions
    requires l.order == l0.order + [tx] && tx in l.transactions && !IsSealed(l.transactions[tx])
    requires l.transactions == l0.transactions[tx := l.transactions[tx]]
    ensures Sealed(l) == Sealed(l0)
  {
    LedgerAlwaysMatches(events);
    assert l.order[..|l0.order|] == l0.order;
    SealedSame(l0, l, l0.order);
  }

  lemma UnsealedReplacement(events: seq<Event>, l0: Ledger, e: Event)
    requires FoldLedger(events) == Ok(l0) && forall x :: x in events ==> x.seqNo < e.seqNo
    ensures e.seqNo !in ByReplacementSeq(Sealed(l0))
  {
    LedgerAlwaysMatches(events);
    SealedSeqs(l0, l0.order, events);
    DoneKeys(Sealed(l0));
  }

  /** An event that seals nothing and renders nothing leaves the projection alone. */
  lemma IgnoredEvent(events: seq<Event>, e: Event, before: Ledger, after: Ledger)
    requires FoldLedger(events) == Ok(before) && FoldLedger(events + [e]) == Ok(after) && Sealed(before) == Sealed(after)
    requires !e.payload.ToolResult? && !e.payload.AssistantMessage? && !e.payload.SkillCatalog?
    requires SlotOf(e, ByReplacementSeq(Sealed(after))) == []
    ensures Project(events + [e]) == Project(events)
  {
    var rs := Sealed(after);
    assert (events + [e])[..|events|] == events;
    if ApplyAll(rs).Ok? {
      var shadowed := ApplyAll(rs).value.shadowed;
      PairingIgnores(events, e, shadowed);
      LatestSnoc(events, e, shadowed);
      var latest := LatestCatalog(events, shadowed);
      assert NodesOf(e, latest, shadowed, ByReplacementSeq(rs)) == [];
      var nodes := BuildNodes(events, latest, shadowed, ByReplacementSeq(rs));
      assert nodes + [] == nodes;
      assert BuildNodes(events + [e], latest, shadowed, ByReplacementSeq(rs)) == nodes;
    }
  }

  // ---------------------------------------------------------------- events outside compactions

  /** No event of a compaction transaction. */
  ghost predicate Uncompacted(events: seq<Event>) {
    forall i :: 0 <= i < |events| ==> !IsCompaction(events[i].payload) && !events[i].payload.SurfaceReplacement?
  }

  lemma {:induction false} LedgerIgnores(events: seq<Event>, more: seq<Event>)
    requires Uncompacted(more)
    ensures FoldLedger(events + more) == FoldLedger(events)
  {
    if |more| == 0 {
      assert events + more == events;
    } else {
      var init, last := more[..|more| - 1], more[|more| - 1];
      LedgerIgnores(events, init);
      assert (events + more)[..|events + more| - 1] == events + init;
    }
  }

  /** A log without compactions shows all its surface events but the superseded catalogs. */
  lemma UncompactedProjects(events: seq<Event>)
    requires Uncompacted(events) && Ordered(events) && ValidPairing(events, {})
    ensures FoldLedger(events) == Ok(EMPTY_LEDGER) && Applies(events) && MetaOf(events) == EMPTY_META
    ensures Project(events).Ok? && Project(events).value.generation == 0 && Project(events).value.shadowed == {}
    ensures ReplacementsSealed(events) && Listing(events) == Slots(events, map[])
    ensures Project(events).value.nodes == Without(Slots(events, map[]), Superseded(events, {}))
  {
    LedgerIgnores([], events);
    assert [] + events == events;
    WithoutNothing(Slots(events, map[]), {});
    ProjectByListing(events);
  }
}
