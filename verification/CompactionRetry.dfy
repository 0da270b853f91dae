/** A compaction that was started and not sealed (agent/loop.go:2181-2239): its start marker is
    durable, so the next attempt of the same generation meets it. The marker is left by a crash, by a
    failing compactor or by a lost lease. Its id names the loop's owner, so the same loop's second
    marker is deduplicated and its batch must repeat the first selection, while another owner's
    marker is a second start. */
module CompactionRetry {
  import opened Events
  import opened Surface
  import opened SurfaceProject
  import opened ProjectionLemmas
  import opened Selection
  import opened Compaction
  import opened CompactionTheorems
  import Store

  // ---------------------------------------------------------------- the second attempt

  function StartId(owner: string, generation: nat): EventId { CompactionId(owner, "compact-start", generation) }

  function SealEvents(owner: string, at: nat, r: Replacement, tx: string): seq<Event> {
    [CompactionSummaryEvent(owner, at, r, tx), CompactionReplacementEvent(owner, at + 1, r, tx), CompactionEndEvent(owner, at + 2, r, tx)]
  }

  /** What an attempt appends: the idempotent append skips a start marker whose id is on the log. */
  function AttemptEvents(log: seq<Event>, owner: string, at: nat, r: Replacement, tx: string): seq<Event> {
    if StartId(owner, r.generation) in Store.Ids(log) then SealEvents(owner, at, r, tx) else CommitEvents(owner, at, r, tx)
  }

  /** A log on which a compaction of the next generation was started and never sealed. */
  ghost predicate Pending(events: seq<Event>, starter: string, first: nat, started: Replacement, tx: string, more: seq<Event>) {
    && FreshTransaction(events, tx) && ValidSources(started.sourceSeqs) && Uncompacted(more)
    && Applies(events) && started.generation == MetaOf(events).generation + 1
  }

  function PendingLog(events: seq<Event>, starter: string, first: nat, started: Replacement, tx: string, more: seq<Event>): seq<Event> {
    events + [CompactionStartEvent(starter, first, started, tx)] + more
  }

  /** An attempt on `log`: the replacement's event gets the sequence the append gives it. */
  ghost predicate Attempt(log: seq<Event>, retain: int, owner: string, at: nat, r: Replacement) {
    && ReadyToReplace(log, retain, r) && Linked(log) && UniqueCalls(log)
    && (forall e :: e in log ==> e.seqNo < at)
    && r.seqNo == at + (if StartId(owner, r.generation) in Store.Ids(log) then 1 else 2)
  }

  // ---------------------------------------------------------------- the ledger

  lemma PendingLedger(events: seq<Event>, starter: string, first: nat, started: Replacement, tx: string, more: seq<Event>)
    requires Pending(events, starter, first, started, tx, more)
    ensures FoldLedger(PendingLog(events, starter, first, started, tx, more))
         == Ok(LedgerWith(FoldLedger(events).value, tx, Started(started)))
    ensures Sealed(LedgerWith(FoldLedger(events).value, tx, Started(started))) == Sealed(FoldLedger(events).value)
  {
    StartIsInvisible(events, starter, first, started, tx);
    LedgerIgnores(events + [CompactionStartEvent(starter, first, started, tx)], more);
    UnsealedSame(events, FoldLedger(events).value, LedgerWith(FoldLedger(events).value, tx, Started(started)), tx);
  }

  /** A second start marker of the same transaction is out of order. */
  lemma SecondStartFails(log: seq<Event>, l: Ledger, owner: string, at: nat, r: Replacement, tx: string)
    requires FoldLedger(log) == Ok(l) && tx in l.transactions && l.transactions[tx].start
    ensures FoldLedger(log + [CompactionStartEvent(owner, at, r, tx)]).Err?
  {
    FoldLedgerSnoc(log, CompactionStartEvent(owner, at, r, tx));
  }

  lemma OtherSourcesFail(log: seq<Event>, l: Ledger, started: Replacement, owner: string, at: nat, r: Replacement, tx: string)
    requires FoldLedger(log) == Ok(l) && tx in l.transactions && l.transactions[tx] == Started(started)
    requires r.sourceSeqs != started.sourceSeqs
    ensures FoldLedger(log + [CompactionSummaryEvent(owner, at, r, tx)]).Err?
  {
    FoldLedgerSnoc(log, CompactionSummaryEvent(owner, at, r, tx));
  }

  /** A log that stops folding never folds again. */
  lemma NeverProjects(log: seq<Event>, e: Event, rest: seq<Event>)
    requires FoldLedger(log + [e]).Err?
    ensures forall later :: Project(log + ([e] + rest) + later).Err?
  {
    forall later ensures Project(log + ([e] + rest) + later).Err? {
      var all := log + ([e] + rest) + later;
      assert all[..|log| + 1] == log + [e];
      FoldLedgerFails(all, |log|);
    }
  }

  lemma AttemptFails(log: seq<Event>, l: Ledger, started: Replacement, owner: string, at: nat, r: Replacement, tx: string)
    requires FoldLedger(log) == Ok(l) && tx in l.transactions && l.transactions[tx] == Started(started)
    requires StartId(owner, r.generation) !in Store.Ids(log) || r.sourceSeqs != started.sourceSeqs
    ensures forall later :: Project(log + AttemptEvents(log, owner, at, r, tx) + later).Err?
  {
    var batch := AttemptEvents(log, owner, at, r, tx);
    if StartId(owner, r.generation) in Store.Ids(log) {
      OtherSourcesFail(log, l, started, owner, at, r, tx);
    } else {
      SecondStartFails(log, l, owner, at, r, tx);
    }
    assert batch == [batch[0]] + batch[1..];
    NeverProjects(log, batch[0], batch[1..]);
  }

  // ---------------------------------------------------------------- sealing the pending transaction

  lemma SealLedger(log: seq<Event>, l: Ledger, owner: string, at: nat, r: Replacement, tx: string)
    requires FoldLedger(log) == Ok(l) && tx != "" && tx in l.transactions && l.transactions[tx] == Started(r)
    requires ValidSources(r.sourceSeqs) && r.seqNo == at + 1
    ensures FoldLedger(log + SealEvents(owner, at, r, tx))
         == Ok(Ledger(l.transactions[tx := Replaced(r).(end := true)], l.order))
  {
    var a, b, c := CompactionSummaryEvent(owner, at, r, tx), CompactionReplacementEvent(owner, at + 1, r, tx), CompactionEndEvent(owner, at + 2, r, tx);
    var l1 := l.(transactions := l.transactions[tx := Summarized(r)]);
    var l2 := l1.(transactions := l1.transactions[tx := Replaced(r)]);
    LedgerAfterSummary(l, owner, at, r, tx);
    FoldLedgerSnoc(log, a);
    LedgerAfterReplacement(l1, owner, r, tx);
    FoldLedgerSnoc(log + [a], b);
    LedgerAfterEnd(l2, owner, at + 2, r, tx);
    FoldLedgerSnoc(log + [a] + [b], c);
    assert log + SealEvents(owner, at, r, tx) == log + [a] + [b] + [c];
    assert l2.transactions[tx := Replaced(r).(end := true)] == l.transactions[tx := Replaced(r).(end := true)];
  }

  lemma SealSlots(log: seq<Event>, owner: string, at: nat, r: Replacement, tx: string, done: map<nat, Replacement>)
    requires r.seqNo == at + 1 && r.seqNo in done && done[r.seqNo] == r
    ensures Slots(log + SealEvents(owner, at, r, tx), done) == Slots(log, done) + [SummaryNode(r)]
  {
    MarkerSlots(owner, at, r, tx, done);
    ReplacementSlot(owner, r, tx, done);
    MarkerSlots(owner, at + 2, r, tx, done);
    SlotsTriple(log, SealEvents(owner, at, r, tx), done, SummaryNode(r));
  }

  lemma SealOrdered(log: seq<Event>, owner: string, at: nat, r: Replacement, tx: string)
    requires Ordered(log) && 0 < at && r.seqNo == at + 1 && forall e :: e in log ==> e.seqNo < at
    ensures Ordered(log + SealEvents(owner, at, r, tx))
  {
    forall i | 0 <= i < |log| ensures log[i].seqNo < at {
      assert log[i] in log;
    }
  }

  lemma SealSupersedes(log: seq<Event>, owner: string, at: nat, r: Replacement, tx: string, shadowed: set<nat>)
    ensures ValidPairing(log + SealEvents(owner, at, r, tx), shadowed) <==> ValidPairing(log, shadowed)
    ensures Superseded(log + SealEvents(owner, at, r, tx), shadowed) == Superseded(log, shadowed)
  {
    var batch := SealEvents(owner, at, r, tx);
    assert forall i :: 0 <= i < |batch| ==> Neutral(batch[i].payload);
    NeutralAfter(log, batch, shadowed);
  }

  lemma SealSeals(events: seq<Event>, log: seq<Event>, owner: string, at: nat, r: Replacement, tx: string)
    requires FreshTransaction(events, tx) && ValidSources(r.sourceSeqs) && r.seqNo == at + 1
    requires FoldLedger(log) == Ok(LedgerWith(FoldLedger(events).value, tx, Started(r)))
    ensures FoldLedger(log + SealEvents(owner, at, r, tx)).Ok?
    ensures Sealed(FoldLedger(log + SealEvents(owner, at, r, tx)).value) == Sealed(FoldLedger(events).value) + [r]
  {
    var l0, l1 := FoldLedger(events).value, FoldLedger(log).value;
    SealLedger(log, l1, owner, at, r, tx);
    assert l1.transactions[tx := Replaced(r).(end := true)] == l0.transactions[tx := Replaced(r).(end := true)];
    SealedWith(events, l0, FoldLedger(log + SealEvents(owner, at, r, tx)).value, r, tx);
  }

  lemma SealSlotsAfter(log: seq<Event>, owner: string, at: nat, r: Replacement, tx: string, rs: seq<Replacement>)
    requires r.seqNo == at + 1 && forall e :: e in log ==> e.seqNo < at
    ensures Slots(log + SealEvents(owner, at, r, tx), ByReplacementSeq(rs + [r])) == Slots(log, ByReplacementSeq(rs)) + [SummaryNode(r)]
  {
    assert (rs + [r])[..|rs|] == rs;
    SealSlots(log, owner, at, r, tx, ByReplacementSeq(rs + [r]));
    SlotsSame(log, ByReplacementSeq(rs), ByReplacementSeq(rs + [r]));
  }

  /** Repeating the sources seals the pending transaction, which is the newest one. */
  lemma SealReplaces(events: seq<Event>, log: seq<Event>, owner: string, at: nat, r: Replacement, tx: string)
    requires FreshTransaction(events, tx) && ValidSources(r.sourceSeqs) && Ordered(log) && 0 < at && r.seqNo == at + 1
    requires FoldLedger(log) == Ok(LedgerWith(FoldLedger(events).value, tx, Started(r)))
    requires Sealed(LedgerWith(FoldLedger(events).value, tx, Started(r))) == Sealed(FoldLedger(events).value)
    requires forall e :: e in log ==> e.seqNo < at
    ensures Replaces(log, log + SealEvents(owner, at, r, tx), r)
  {
    SealSeals(events, log, owner, at, r, tx);
    SealOrdered(log, owner, at, r, tx);
    SealSlotsAfter(log, owner, at, r, tx, Sealed(FoldLedger(events).value));
    forall shadowed ensures ValidPairing(log + SealEvents(owner, at, r, tx), shadowed) <==> ValidPairing(log, shadowed)
      ensures Superseded(log + SealEvents(owner, at, r, tx), shadowed) == Superseded(log, shadowed)
    {
      SealSupersedes(log, owner, at, r, tx, shadowed);
    }
  }

  /** An attempt on a log that holds the start marker of an unsealed compaction succeeds exactly when
      its own marker is deduplicated and its selection repeats the marker's. It then rewrites the
      listing like any commit; otherwise the log, however it grows, never projects again. */
  lemma RetrySealsExactly(events: seq<Event>, starter: string, first: nat, started: Replacement, tx: string,
        more: seq<Event>, retain: int, owner: string, at: nat, r: Replacement)
    requires Pending(events, starter, first, started, tx, more)
    requires Attempt(PendingLog(events, starter, first, started, tx, more), retain, owner, at, r)
    ensures var log := PendingLog(events, starter, first, started, tx, more);
            var after := log + AttemptEvents(log, owner, at, r, tx);
            && (Project(after).Ok? <==> StartId(owner, r.generation) in Store.Ids(log) && r.sourceSeqs == started.sourceSeqs)
            && (Project(after).Ok? ==> IsRewrittenBy(log, after, r))
            && (Project(after).Err? ==> forall later :: Project(after + later).Err?)
  {
    var log := PendingLog(events, starter, first, started, tx, more);
    var after := log + AttemptEvents(log, owner, at, r, tx);
    PendingLedger(events, starter, first, started, tx, more);
    if StartId(owner, r.generation) in Store.Ids(log) && r.sourceSeqs == started.sourceSeqs {
      assert Started(r) == Started(started);
      ProjectByListing(log);
      SelectionIsOnList(log, retain, r);
      SealReplaces(events, log, owner, at, r, tx);
      ReplacementIsRewrite(log, after, retain, r);
    } else {
      AttemptFails(log, FoldLedger(log).value, started, owner, at, r, tx);
      assert after + [] == after;
      assert Project(after + []).Err?;
    }
  }

  /** Whose marker is deduplicated: the starter's own, and nobody else's. */
  lemma OwnMarkerIsKnown(events: seq<Event>, starter: string, first: nat, started: Replacement, tx: string,
        more: seq<Event>, owner: string)
    requires StartId(owner, started.generation) !in Store.Ids(events + more)
    ensures StartId(owner, started.generation) in Store.Ids(PendingLog(events, starter, first, started, tx, more)) <==> owner == starter
  {
    var start := CompactionStartEvent(starter, first, started, tx);
    var log := PendingLog(events, starter, first, started, tx, more);
    assert log[|events|] == start;
    assert forall e :: e in log <==> e in events + more || e == start;
    assert forall e :: e in events + more && e.id != NoId ==> e.id in Store.Ids(events + more);
  }

  // ---------------------------------------------------------------- when the selection repeats

  /** A log has one selection. */
  lemma SelectionIsUnique(events: seq<Event>, retain: int, shadowed: set<nat>, a: seq<nat>, b: seq<nat>)
    requires IsSelection(events, retain, shadowed, a) && IsSelection(events, retain, shadowed, b)
    ensures a == b
  {
    var surface := SurfaceEvents(events, shadowed);
    var kept := RetainedCount(retain, |surface|);
    if !(kept < 1 || |surface| <= kept) {
      var start := |surface| - kept;
      assert SelectedFrom(surface, start, a) && SelectedFrom(surface, start, b);
      var c, p :| SelectedBy(surface, start, c, p, a);
      var d, q :| SelectedBy(surface, start, d, q, b);
      assert c == d;
      assert p == q;
    }
  }

  lemma {:induction false} SurfaceIgnores(events: seq<Event>, more: seq<Event>, shadowed: set<nat>)
    requires forall i :: 0 <= i < |more| ==> !IsSurface(more[i].payload)
    ensures SurfaceEvents(events + more, shadowed) == SurfaceEvents(events, shadowed)
  {
    if |more| == 0 {
      assert events + more == events;
    } else {
      var init, last := more[..|more| - 1], more[|more| - 1];
      SurfaceIgnores(events, init, shadowed);
      assert (events + more)[..|events + more| - 1] == events + init;
      assert SurfaceEvents(events, shadowed) + [] == SurfaceEvents(events, shadowed);
    }
  }

  /** Until a surface event is written, the same retained size selects the same sources again: so the
      fallback that follows a failing compactor seals the pending transaction. */
  lemma RetryAtOnceRepeats(events: seq<Event>, starter: string, first: nat, started: Replacement, tx: string,
        more: seq<Event>, retain: int, shadowed: set<nat>, out: seq<nat>)
    requires forall i :: 0 <= i < |more| ==> !IsSurface(more[i].payload)
    requires IsSelection(events, retain, shadowed, started.sourceSeqs)
    requires IsSelection(PendingLog(events, starter, first, started, tx, more), retain, shadowed, out)
    ensures out == started.sourceSeqs
  {
    var start := CompactionStartEvent(starter, first, started, tx);
    SurfaceIgnores(events, [start] + more, shadowed);
    assert events + ([start] + more) == PendingLog(events, starter, first, started, tx, more);
    SelectionIsUnique(events, retain, shadowed, started.sourceSeqs, out);
  }

  // ---------------------------------------------------------------- a retry that ruins the log

  function User(seqNo: nat): Event { Event(seqNo, NoId, "s", "r", "t", "st", "", [], UserMessage("u")) }

  const BEFORE := [User(1), User(2), User(3)]
  const STARTED := Replacement(1, [1, 2], "", "", 6)
  const LATER := [User(5)]
  const LOG := PendingLog(BEFORE, "worker", 4, STARTED, "compact-1", LATER)
  const RETRIED := Replacement(1, [1, 2, 3], "summary", "f", 7)

  /** Without calls and skills the selection is everything before the retained tail. */
  lemma PlainSelection(events: seq<Event>, surface: seq<Event>, retain: nat, out: seq<nat>)
    requires surface == SurfaceEvents(events, {}) && 0 < retain < |surface|
    requires forall e :: e in surface ==> e.payload.UserMessage?
    requires out == Unprotected(surface[..|surface| - retain], {})
    ensures IsSelection(events, retain, {}, out)
  {
    var start := |surface| - retain;
    forall c: nat, p: set<nat> ensures PairClosed(surface, c) && LinkClosed(surface, p) {
      Unpaired(surface, c, p);
    }
    assert HasSeeds(surface, {}) && LeastProtected(surface, {}) && GreatestCut(surface, start, start);
    assert SelectedBy(surface, start, start, {}, out);
    assert SelectedFrom(surface, start, out);
  }

  lemma BeforeSelection()
    ensures SurfaceEvents(BEFORE, {}) == BEFORE && Unprotected(BEFORE[..2], {}) == [1, 2]
    ensures IsSelection(BEFORE, 1, {}, STARTED.sourceSeqs)
  {
    assert BEFORE == [] + [User(1)] + [User(2)] + [User(3)];
    SurfaceSnoc([], User(1), {});
    SurfaceSnoc([] + [User(1)], User(2), {});
    SurfaceSnoc([] + [User(1)] + [User(2)], User(3), {});
    assert BEFORE[..2] == [] + [User(1)] + [User(2)];
    UnprotectedSnoc([], User(1), {});
    UnprotectedSnoc([] + [User(1)], User(2), {});
    PlainSelection(BEFORE, BEFORE, 1, [1, 2]);
  }

  lemma LaterSelection()
    ensures IsSelection(LOG, 1, {}, RETRIED.sourceSeqs)
  {
    var start := CompactionStartEvent("worker", 4, STARTED, "compact-1");
    BeforeSelection();
    SurfaceSnoc(BEFORE, start, {});
    SurfaceSnoc(BEFORE + [start], User(5), {});
    assert LOG == BEFORE + [start] + [User(5)];
    var surface := BEFORE + [User(5)];
    assert SurfaceEvents(LOG, {}) == surface;
    assert surface[..3] == BEFORE == BEFORE[..2] + [User(3)];
    UnprotectedSnoc(BEFORE[..2], User(3), {});
    PlainSelection(LOG, surface, 1, [1, 2, 3]);
  }

  lemma DistinctSources()
    ensures ValidSources(STARTED.sourceSeqs) && ValidSources(RETRIED.sourceSeqs)
  {
  }

  lemma BeforeMembers()
    ensures Ordered(BEFORE) && Uncompacted(BEFORE) && Uncompacted(LATER)
    ensures forall e :: e in BEFORE ==> !e.payload.ToolResult? && !e.payload.AssistantMessage?
  {
  }

  lemma FreshAfter(events: seq<Event>, tx: string)
    requires Ordered(events) && Uncompacted(events) && ValidPairing(events, {}) && tx != ""
    ensures FreshTransaction(events, tx) && Applies(events) && MetaOf(events).generation == 0 && FoldLedger(events).value == EMPTY_LEDGER
  {
    UncompactedProjects(events);
  }

  lemma BeforeIsPending()
    ensures Pending(BEFORE, "worker", 4, STARTED, "compact-1", LATER) && FoldLedger(BEFORE).value == EMPTY_LEDGER
  {
    DistinctSources();
    BeforeMembers();
    Unanswered(BEFORE, {});
    FreshAfter(BEFORE, "compact-1");
  }

  lemma LogFolds()
    ensures FoldLedger(LOG).Ok? && Sealed(FoldLedger(LOG).value) == []
    ensures FoldLedger(LOG).value == LedgerWith(EMPTY_LEDGER, "compact-1", Started(STARTED))
  {
    BeforeIsPending();
    PendingLedger(BEFORE, "worker", 4, STARTED, "compact-1", LATER);
    assert Sealed(EMPTY_LEDGER) == [];
  }

  lemma LogMembers()
    ensures Ordered(LOG) && LOG[3].id == StartId("worker", 1) && LOG[3] in LOG
    ensures forall e :: e in LOG ==> e.seqNo < 6 && !e.payload.ToolResult? && !e.payload.AssistantMessage? && !e.payload.SurfaceReplacement?
  {
  }

  /** The log projects while the compaction is pending. */
  lemma LogProjects()
    ensures Project(LOG).Ok? && Project(LOG).value.shadowed == {} && Project(LOG).value.generation == 0
  {
    LogFolds();
    LogMembers();
    Unanswered(LOG, {});
    ProjectByListing(LOG);
  }

  lemma LogIsAttempted()
    ensures Attempt(LOG, 1, "worker", 6, RETRIED)
  {
    LogProjects();
    LogMembers();
    LogFolds();
    Unanswered(LOG, {});
    LaterSelection();
  }

  /** The marker selects the first two of three messages; a later message makes the same loop's next
      attempt select three, and from that batch on the log is refused for good. */
  lemma LaterMessageRuinsRetry()
    ensures IsSelection(BEFORE, 1, {}, STARTED.sourceSeqs) && Attempt(LOG, 1, "worker", 6, RETRIED)
    ensures Project(LOG).Ok?
    ensures forall later :: Project(LOG + AttemptEvents(LOG, "worker", 6, RETRIED, "compact-1") + later).Err?
  {
    BeforeSelection();
    BeforeIsPending();
    LogProjects();
    LogIsAttempted();
    RetrySealsExactly(BEFORE, "worker", 4, STARTED, "compact-1", LATER, 1, "worker", 6, RETRIED);
  }

  /** Another loop ruins the log even with the same selection: its start marker is a second start. */
  lemma OtherOwnerRuinsRetry(owner: string, r: Replacement)
    requires owner != "worker" && r.generation == 1
    ensures forall later :: Project(LOG + AttemptEvents(LOG, owner, 6, r, "compact-1") + later).Err?
  {
    LogFolds();
    assert forall e :: e in BEFORE + LATER ==> e.id == NoId;
    OwnMarkerIsKnown(BEFORE, "worker", 4, STARTED, "compact-1", LATER, owner);
    AttemptFails(LOG, FoldLedger(LOG).value, STARTED, owner, 6, r, "compact-1");
  }
}
