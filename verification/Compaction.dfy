/** Compaction end to end (agent/loop.go:2181-2239 against session/surface.go:169-418): what the
    selection chooses is always something the projection accepts, and committing it rewrites the
    visible list. */
module Compaction {
  import opened Events
  import opened Surface
  import opened ProjectionLemmas
  import opened Selection

  // ---------------------------------------------------------------- what writers guarantee

  /** Every result lists the assistant messages that made its call, and only those. */
  ghost predicate Linked(events: seq<Event>) {
    forall r :: r in events && r.payload.ToolResult? ==>
      r.sources != [] && forall s :: s in r.sources ==> AnsweredBy(events, r, s)
  }

  ghost predicate AnsweredBy(events: seq<Event>, r: Event, s: nat) {
    exists a :: a in events && a.seqNo == s && a.payload.AssistantMessage? && r.call in a.payload.calls
  }

  /** A call id belongs to one assistant message of the session. */
  ghost predicate UniqueCalls(events: seq<Event>) {
    forall a, b, call {:trigger call in a.payload.calls, call in b.payload.calls} ::
      (a in events && b in events && a.payload.AssistantMessage? && b.payload.AssistantMessage?
       && call in a.payload.calls && call in b.payload.calls) ==> a == b
  }

  /** No replacement event is left without its sealed transaction: commits are one batch. */
  ghost predicate ReplacementsSealed(events: seq<Event>)
    requires FoldLedger(events).Ok?
  {
    forall e :: e in events && e.payload.SurfaceReplacement? ==> e.seqNo in ByReplacementSeq(Sealed(FoldLedger(events).value))
  }

  lemma Unanswered(events: seq<Event>, shadowed: set<nat>)
    requires forall e :: e in events ==> !e.payload.ToolResult? && !e.payload.AssistantMessage?
    ensures ValidPairing(events, shadowed) && Linked(events) && UniqueCalls(events)
  {
    assert forall i :: 0 <= i < |events| ==> events[i] in events;
  }

  // ---------------------------------------------------------------- selection keeps pairs together

  lemma SurfacePosition(surface: seq<Event>, e: Event) returns (i: nat)
    requires e in surface
    ensures i < |surface| && surface[i] == e
  {
    i :| 0 <= i < |surface| && surface[i] == e;
  }

  /** Where a selected sequence lives. */
  lemma SelectedPosition(surface: seq<Event>, cut: nat, p: set<nat>, x: nat) returns (i: nat)
    requires cut <= |surface| && x in Unprotected(surface[..cut], p)
    ensures i < cut && surface[i].seqNo == x && x !in p
  {
    UnprotectedMembers(surface[..cut], p);
    i :| 0 <= i < cut && surface[..cut][i].seqNo == x;
  }

  /** Selection never breaks pairing: for every cut that splits no pair and every protected set
      that is closed under result links, shadowing the selection keeps a valid pairing valid. */
  lemma SelectionKeepsPairing(events: seq<Event>, shadowed: set<nat>, cut: nat, p: set<nat>)
    requires Ordered(events) && Linked(events) && UniqueCalls(events)
    requires ValidPairing(events, shadowed)
    requires cut <= |SurfaceEvents(events, shadowed)|
    requires PairClosed(SurfaceEvents(events, shadowed), cut) && LinkClosed(SurfaceEvents(events, shadowed), p)
    ensures ValidPairing(events, shadowed + SourceSet(Unprotected(SurfaceEvents(events, shadowed)[..cut], p)))
  {
    var surface := SurfaceEvents(events, shadowed);
    var out := Unprotected(surface[..cut], p);
    SurfaceMembers(events, shadowed);
    forall i, call {:trigger call in events[i].payload.calls} |
      0 <= i < |events| && events[i].payload.AssistantMessage? && call in events[i].payload.calls && call != ""
      && events[i].seqNo !in shadowed + SourceSet(out) && LastResult(events, call).Some?
      ensures LastResult(events, call).value !in shadowed + SourceSet(out)
    {
      if LastResult(events, call).value in out {
        ResultFollowsCall(events, shadowed, cut, p, events[i], call);
      }
    }
    forall i | 0 <= i < |events| && events[i].payload.ToolResult? && events[i].seqNo !in shadowed + SourceSet(out)
      ensures ResultSources(events, events[i]) !! shadowed + SourceSet(out)
    {
      var r := events[i];
      assert r in events && ResultSources(events, r) !! shadowed;
      forall s | s in r.sources ensures s !in out {
        if s in out {
          CallFollowsResult(events, shadowed, cut, p, r, s);
        }
      }
    }
  }

  /** A selected result whose assistant message stays visible is impossible. */
  lemma ResultFollowsCall(events: seq<Event>, shadowed: set<nat>, cut: nat, p: set<nat>, a: Event, call: string)
    requires Ordered(events) && Linked(events) && UniqueCalls(events)
    requires cut <= |SurfaceEvents(events, shadowed)|
    requires PairClosed(SurfaceEvents(events, shadowed), cut) && LinkClosed(SurfaceEvents(events, shadowed), p)
    requires a in events && a.payload.AssistantMessage? && call in a.payload.calls && LastResult(events, call).Some?
    requires a.seqNo !in shadowed
    requires LastResult(events, call).value in Unprotected(SurfaceEvents(events, shadowed)[..cut], p)
    ensures a.seqNo in Unprotected(SurfaceEvents(events, shadowed)[..cut], p)
  {
    var surface := SurfaceEvents(events, shadowed);
    SurfaceMembers(events, shadowed);
    LastResultFound(events, call);
    var r :| r in events && r.payload.ToolResult? && r.call == call && r.seqNo == LastResult(events, call).value;
    var k := SelectedPosition(surface, cut, p, r.seqNo);
    assert surface[k] in surface;
    DistinctSeqs(events, surface[k], r);
    var m := SurfacePosition(surface, a);
    assert Needs(surface, m, k) && m < cut;
    assert a.seqNo !in p by {
      assert AnsweredBy(events, r, r.sources[0]);
      var b :| b in events && b.seqNo == r.sources[0] && b.payload.AssistantMessage? && call in b.payload.calls;
      assert b == a && surface[k] in surface && LinkHolds(r, p);
      assert a.seqNo in p ==> a.seqNo in SourceSet(r.sources) * p;
    }
    UnprotectedMembers(surface[..cut], p);
    assert surface[..cut][m] == a;
  }

  /** A selected assistant message whose result stays visible is impossible. */
  lemma CallFollowsResult(events: seq<Event>, shadowed: set<nat>, cut: nat, p: set<nat>, r: Event, s: nat)
    requires Ordered(events)
    requires cut <= |SurfaceEvents(events, shadowed)|
    requires PairClosed(SurfaceEvents(events, shadowed), cut) && LinkClosed(SurfaceEvents(events, shadowed), p)
    requires r in events && r.payload.ToolResult? && s in r.sources && r.seqNo !in shadowed
    requires s in Unprotected(SurfaceEvents(events, shadowed)[..cut], p)
    ensures r.seqNo in Unprotected(SurfaceEvents(events, shadowed)[..cut], p)
  {
    var surface := SurfaceEvents(events, shadowed);
    SurfaceMembers(events, shadowed);
    var k := SelectedPosition(surface, cut, p, s);
    var m := SurfacePosition(surface, r);
    assert Needs(surface, m, k) && m < cut;
    assert LinkHolds(r, p) && s in SourceSet(r.sources);
    UnprotectedMembers(surface[..cut], p);
    assert surface[..cut][m] == r;
  }

  // ---------------------------------------------------------------- the committed transaction

  /** An event of the compaction of one generation; its id also names the loop that writes it. */
  function Entry(owner: string, kind: string, generation: nat, seqNo: nat, sources: seq<nat>, payload: Payload): Event {
    Event(seqNo, CompactionId(owner, kind, generation), "", "", "", "", "", sources, payload)
  }

  /** The events of one compaction (agent/loop.go:2206-2239): a start marker, then one batch of
      summary, surface replacement and end marker. */
  function CompactionStartEvent(owner: string, first: nat, r: Replacement, tx: string): Event {
    Entry(owner, "compact-start", r.generation, first, [], CompactionStart(r.generation, tx, r.sourceSeqs))
  }

  function CompactionSummaryEvent(owner: string, at: nat, r: Replacement, tx: string): Event {
    Entry(owner, "compact-summary", r.generation, at, r.sourceSeqs, CompactionSummary(r.generation, tx, r.sourceSeqs, r.summary, r.fingerprint))
  }

  function CompactionReplacementEvent(owner: string, at: nat, r: Replacement, tx: string): Event {
    Entry(owner, "compact-surface", r.generation, at, r.sourceSeqs, SurfaceReplacement(r.generation, tx, r.sourceSeqs, r.summary, r.fingerprint))
  }

  function CompactionEndEvent(owner: string, at: nat, r: Replacement, tx: string): Event {
    Entry(owner, "compact-end", r.generation, at, [], CompactionEnd(r.generation, tx))
  }

  function CommitEvents(owner: string, first: nat, r: Replacement, tx: string): seq<Event> {
    [CompactionStartEvent(owner, first, r, tx), CompactionSummaryEvent(owner, first + 1, r, tx),
     CompactionReplacementEvent(owner, first + 2, r, tx), CompactionEndEvent(owner, first + 3, r, tx)]
  }

  ghost predicate FreshTransaction(events: seq<Event>, tx: string) {
    tx != "" && FoldLedger(events).Ok? && tx !in FoldLedger(events).value.transactions
  }

  lemma FoldLedgerSnoc(events: seq<Event>, e: Event)
    requires FoldLedger(events).Ok?
    ensures FoldLedger(events + [e]) == LedgerStep(FoldLedger(events).value, e)
  {
    assert (events + [e])[..|events|] == events;
  }

  function Started(r: Replacement): Transaction {
    NEW_TRANSACTION.(generation := r.generation, sourceSeqs := r.sourceSeqs, start := true)
  }

  function Summarized(r: Replacement): Transaction {
    Started(r).(summary := r.summary, fingerprint := r.fingerprint, summarySeen := true)
  }

  function Replaced(r: Replacement): Transaction {
    Summarized(r).(replacementSeen := true, replacementSeq := r.seqNo)
  }

  /** The ledger after each event of a fresh transaction. */
  lemma LedgerAfterStart(l: Ledger, owner: string, first: nat, r: Replacement, tx: string)
    requires tx != "" && tx !in l.transactions && ValidSources(r.sourceSeqs)
    ensures LedgerStep(l, CompactionStartEvent(owner, first, r, tx)) == Ok(Ledger(l.transactions[tx := Started(r)], l.order + [tx]))
  {
  }

  lemma LedgerAfterSummary(l: Ledger, owner: string, at: nat, r: Replacement, tx: string)
    requires tx != "" && tx in l.transactions && l.transactions[tx] == Started(r) && ValidSources(r.sourceSeqs)
    ensures LedgerStep(l, CompactionSummaryEvent(owner, at, r, tx)) == Ok(l.(transactions := l.transactions[tx := Summarized(r)]))
  {
  }

  lemma LedgerAfterReplacement(l: Ledger, owner: string, r: Replacement, tx: string)
    requires tx != "" && tx in l.transactions && l.transactions[tx] == Summarized(r) && ValidSources(r.sourceSeqs)
    ensures LedgerStep(l, CompactionReplacementEvent(owner, r.seqNo, r, tx)) == Ok(l.(transactions := l.transactions[tx := Replaced(r)]))
  {
  }

  lemma LedgerAfterEnd(l: Ledger, owner: string, at: nat, r: Replacement, tx: string)
    requires tx != "" && tx in l.transactions && l.transactions[tx] == Replaced(r)
    ensures LedgerStep(l, CompactionEndEvent(owner, at, r, tx)) == Ok(l.(transactions := l.transactions[tx := Replaced(r).(end := true)]))
  {
  }

  /** Folding a fresh, valid transaction seals it after everything already sealed. */
  lemma CommitSeals(events: seq<Event>, owner: string, first: nat, r: Replacement, tx: string)
    requires FreshTransaction(events, tx) && ValidSources(r.sourceSeqs) && r.seqNo == first + 2
    ensures FoldLedger(events + CommitEvents(owner, first, r, tx)).Ok?
    ensures Sealed(FoldLedger(events + CommitEvents(owner, first, r, tx)).value) == Sealed(FoldLedger(events).value) + [r]
  {
    var l0 := FoldLedger(events).value;
    var e1, e2 := CompactionStartEvent(owner, first, r, tx), CompactionSummaryEvent(owner, first + 1, r, tx);
    var e3, e4 := CompactionReplacementEvent(owner, first + 2, r, tx), CompactionEndEvent(owner, first + 3, r, tx);
    var l1 := Ledger(l0.transactions[tx := Started(r)], l0.order + [tx]);
    LedgerAfterStart(l0, owner, first, r, tx);
    FoldLedgerSnoc(events, e1);
    var l2 := l1.(transactions := l1.transactions[tx := Summarized(r)]);
    LedgerAfterSummary(l1, owner, first + 1, r, tx);
    FoldLedgerSnoc(events + [e1], e2);
    var l3 := l2.(transactions := l2.transactions[tx := Replaced(r)]);
    LedgerAfterReplacement(l2, owner, r, tx);
    FoldLedgerSnoc(events + [e1] + [e2], e3);
    var l4 := l3.(transactions := l3.transactions[tx := Replaced(r).(end := true)]);
    LedgerAfterEnd(l3, owner, first + 3, r, tx);
    FoldLedgerSnoc(events + [e1] + [e2] + [e3], e4);
    assert events + CommitEvents(owner, first, r, tx) == events + [e1] + [e2] + [e3] + [e4];
    SealedWith(events, l0, l4, r, tx);
  }

  lemma SealedWith(events: seq<Event>, l0: Ledger, l: Ledger, r: Replacement, tx: string)
    requires FoldLedger(events) == Ok(l0) && tx !in l0.transactions
    requires l.order == l0.order + [tx] && l.transactions == l0.transactions[tx := Replaced(r).(end := true)]
    ensures Sealed(l) == Sealed(l0) + [r]
  {
    LedgerAlwaysMatches(events);
    assert l.order[..|l0.order|] == l0.order;
    SealedSame(l0, l, l0.order);
    assert ToReplacement(Replaced(r).(end := true)) == r;
  }

  lemma ApplySnoc(rs: seq<Replacement>, r: Replacement)
    requires ApplyAll(rs).Ok? && r.generation > ApplyAll(rs).value.generation
    ensures ApplyAll(rs + [r]) == ApplyOne(ApplyAll(rs).value, r)
    ensures ApplyAll(rs + [r]).Ok?
  {
    assert (rs + [r])[..|rs|] == rs;
  }

  /** Events that neither make calls nor answer them nor carry a catalog. */
  predicate Neutral(p: Payload) { !p.ToolResult? && !p.AssistantMessage? && !p.SkillCatalog? }

  lemma {:induction false} NeutralAfter(events: seq<Event>, more: seq<Event>, shadowed: set<nat>)
    requires forall i :: 0 <= i < |more| ==> Neutral(more[i].payload)
    ensures ValidPairing(events + more, shadowed) <==> ValidPairing(events, shadowed)
    ensures LatestCatalog(events + more, shadowed) == LatestCatalog(events, shadowed)
  {
    if |more| == 0 {
      assert events + more == events;
    } else {
      var init, last := more[..|more| - 1], more[|more| - 1];
      NeutralAfter(events, init, shadowed);
      PairingIgnores(events + init, last, shadowed);
      LatestSnoc(events + init, last, shadowed);
      assert events + more == events + init + [last];
    }
  }

  /** Appended compaction events take no part in pairing and hold no catalog. */
  lemma CommitIsNeutral(events: seq<Event>, owner: string, first: nat, r: Replacement, tx: string, shadowed: set<nat>)
    ensures ValidPairing(events + CommitEvents(owner, first, r, tx), shadowed) <==> ValidPairing(events, shadowed)
    ensures LatestCatalog(events + CommitEvents(owner, first, r, tx), shadowed) == LatestCatalog(events, shadowed)
  {
    var commit := CommitEvents(owner, first, r, tx);
    assert forall i :: 0 <= i < |commit| ==> Neutral(commit[i].payload);
    NeutralAfter(events, commit, shadowed);
  }

  lemma LatestSnoc(events: seq<Event>, e: Event, shadowed: set<nat>)
    requires !e.payload.SkillCatalog?
    ensures LatestCatalog(events + [e], shadowed) == LatestCatalog(events, shadowed)
  {
    assert (events + [e])[..|events|] == events;
  }

  lemma SlotsSnoc(events: seq<Event>, e: Event, done: map<nat, Replacement>)
    ensures Slots(events + [e], done) == Slots(events, done) + SlotOf(e, done)
  {
    assert (events + [e])[..|events|] == events;
  }

  lemma ReplacementSlot(owner: string, r: Replacement, tx: string, done: map<nat, Replacement>)
    requires r.seqNo in done && done[r.seqNo] == r
    ensures SlotOf(CompactionReplacementEvent(owner, r.seqNo, r, tx), done) == [SummaryNode(r)]
  {
  }

  lemma MarkerSlots(owner: string, at: nat, r: Replacement, tx: string, done: map<nat, Replacement>)
    ensures SlotOf(CompactionStartEvent(owner, at, r, tx), done) == []
    ensures SlotOf(CompactionSummaryEvent(owner, at, r, tx), done) == []
    ensures SlotOf(CompactionEndEvent(owner, at, r, tx), done) == []
  {
  }

  /** The committed transaction adds exactly one slot: its own summary. */
  lemma CommitSlots(events: seq<Event>, owner: string, first: nat, r: Replacement, tx: string, done: map<nat, Replacement>)
    requires r.seqNo == first + 2 && r.seqNo in done && done[r.seqNo] == r
    ensures Slots(events + CommitEvents(owner, first, r, tx), done) == Slots(events, done) + [SummaryNode(r)]
  {
    MarkerSlots(owner, first, r, tx, done);
    MarkerSlots(owner, first + 1, r, tx, done);
    ReplacementSlot(owner, r, tx, done);
    MarkerSlots(owner, first + 3, r, tx, done);
    SlotsQuad(events, CommitEvents(owner, first, r, tx), done, SummaryNode(r));
  }

  lemma SlotsQuad(events: seq<Event>, quad: seq<Event>, done: map<nat, Replacement>, n: Node)
    requires |quad| == 4 && SlotOf(quad[0], done) == [] && SlotOf(quad[1], done) == []
    requires SlotOf(quad[2], done) == [n] && SlotOf(quad[3], done) == []
    ensures Slots(events + quad, done) == Slots(events, done) + [n]
  {
    SlotsSnoc(events, quad[0], done);
    SlotsTriple(events + [quad[0]], quad[1..], done, n);
    assert events + [quad[0]] + quad[1..] == events + quad;
  }

  lemma SlotsTriple(events: seq<Event>, triple: seq<Event>, done: map<nat, Replacement>, n: Node)
    requires |triple| == 3 && SlotOf(triple[0], done) == [] && SlotOf(triple[1], done) == [n] && SlotOf(triple[2], done) == []
    ensures Slots(events + triple, done) == Slots(events, done) + [n]
  {
    var a, b, c := triple[0], triple[1], triple[2];
    SlotsAfter(events, a, [], done);
    SlotsAfter(events + [a], b, [n], done);
    SlotsAfter(events + [a] + [b], c, [], done);
    assert events + triple == events + [a] + [b] + [c];
  }

  lemma SlotsAfter(events: seq<Event>, e: Event, slots: seq<Node>, done: map<nat, Replacement>)
    requires SlotOf(e, done) == slots
    ensures Slots(events + [e], done) == Slots(events, done) + slots
  {
    SlotsSnoc(events, e, done);
  }
}
