/** Whole runs of ordinary events, successful compactions and failing ones, by any loops of a session
    (agent/loop.go:2103-2118, agent/loop.go:2181-2239). A failing compactor leaves its start marker, and
    the next attempt, often the fallback of the same call, seals it, repeats it or ruins the log. */
module CompactionChains {
  import opened Events
  import opened Surface
  import opened Compaction
  import opened CompactionTheorems
  import opened CompactionRetry
  import opened CompactionLoop
  import Store

  /** A session's life as far as its log goes. */
  datatype Move =
    | Writes(e: Event)
    | Compacts(owner: string, retain: int, r: Replacement)
    | Fails(owner: string, retain: int, r: Replacement)

  ghost predicate Allowed(log: seq<Event>, move: Move) {
    match move
    case Writes(e) => !e.id.CompactionId? && !IsCompaction(e.payload) && !e.payload.SurfaceReplacement? && e.seqNo == NextSeq(log)
    case Compacts(owner, retain, r) => Linked(log) && UniqueCalls(log) && Decided(log, retain, owner, r)
    case Fails(owner, retain, r) => Decided(log, retain, owner, r)
  }

  ghost function After(log: seq<Event>, move: Move): seq<Event> {
    match move
    case Writes(e) => log + [e]
    case Compacts(owner, _, r) => AddSeal(AddStart(log, owner, r, TransactionId(r.generation)), owner, r, TransactionId(r.generation))
    case Fails(owner, _, r) => AddStart(log, owner, r, TransactionId(r.generation))
  }

  ghost function LogOf(moves: seq<Move>): seq<Event> {
    if |moves| == 0 then []
    else
      var log := LogOf(moves[..|moves| - 1]);
      if Allowed(log, moves[|moves| - 1]) then After(log, moves[|moves| - 1]) else log
  }

  // ---------------------------------------------------------------- the three kinds of log

  /** `log` is a chain that ends in a failed compaction and ordinary events after it. */
  ghost predicate Waits(log: seq<Event>, base: seq<Event>, starter: string, started: Replacement, more: seq<Event>) {
    && Chained(base) && ValidSources(started.sourceSeqs) && started.generation == MetaOf(base).generation + 1
    && log == PendingLog(base, starter, NextSeq(base), started, TransactionId(started.generation), more)
    && Ordered(log) && Uncompacted(more) && forall e :: e in more ==> !e.id.CompactionId?
  }

  ghost predicate HalfDone(log: seq<Event>) { exists base, starter, started, more :: Waits(log, base, starter, started, more) }

  /** The log is refused for good. */
  ghost predicate Ruined(log: seq<Event>) { forall later :: Project(log + later).Err? }

  ghost predicate InChain(log: seq<Event>) { Chained(log) || HalfDone(log) || Ruined(log) }

  predicate IsMarker(e: Event, generation: nat) { e.payload.CompactionStart? && e.payload.generation == generation }

  /** A start marker of the generation that another owner wrote. */
  ghost predicate ForeignMarker(log: seq<Event>, owner: string, generation: nat) {
    exists e :: e in log && IsMarker(e, generation) && e.id != StartId(owner, generation)
  }

  /** A start marker of the generation that the attempt does not repeat. */
  ghost predicate Conflicts(log: seq<Event>, owner: string, r: Replacement) {
    exists e :: e in log && IsMarker(e, r.generation) && (e.id != StartId(owner, r.generation) || e.payload.sourceSeqs != r.sourceSeqs)
  }

  lemma ChainedHasNoMarker(log: seq<Event>, owner: string, r: Replacement)
    requires Chained(log) && r.generation == MetaOf(log).generation + 1
    ensures !Conflicts(log, owner, r) && !ForeignMarker(log, owner, r.generation)
  {
  }

  /** The pending marker is the only one of its generation. */
  lemma WaitsMembers(log: seq<Event>, base: seq<Event>, starter: string, started: Replacement, more: seq<Event>)
    requires Waits(log, base, starter, started, more)
    ensures var start := CompactionStartEvent(starter, NextSeq(base), started, TransactionId(started.generation));
            && start in log && IsMarker(start, started.generation)
            && (forall e :: e in log ==> e in base || e == start || e in more)
            && (forall e :: e in log && IsMarker(e, started.generation) ==> e == start)
    ensures forall e :: e in base ==> e in log
  {
    var start := CompactionStartEvent(starter, NextSeq(base), started, TransactionId(started.generation));
    assert log[|base|] == start;
    assert forall i :: 0 <= i < |base| ==> log[i] == base[i];
  }

  lemma WaitsConflicts(log: seq<Event>, base: seq<Event>, starter: string, started: Replacement, more: seq<Event>,
        owner: string, r: Replacement)
    requires Waits(log, base, starter, started, more) && r.generation == started.generation
    ensures Conflicts(log, owner, r) <==> owner != starter || r.sourceSeqs != started.sourceSeqs
    ensures ForeignMarker(log, owner, r.generation) <==> owner != starter
    ensures StartId(owner, r.generation) in Store.Ids(log) <==> owner == starter
    ensures Unsealed(log, owner, r.generation)
  {
    WaitsMembers(log, base, starter, started, more);
    assert StartId(starter, started.generation) != StartId(owner, started.generation) <==> owner != starter;
  }

  lemma WaitsFolds(log: seq<Event>, base: seq<Event>, starter: string, started: Replacement, more: seq<Event>)
    requires Waits(log, base, starter, started, more)
    ensures var tx := TransactionId(started.generation);
            && Pending(base, starter, NextSeq(base), started, tx, more)
            && FoldLedger(log) == Ok(LedgerWith(FoldLedger(base).value, tx, Started(started)))
            && Sealed(FoldLedger(log).value) == Sealed(FoldLedger(base).value)
    ensures Applies(log) && MetaOf(log) == MetaOf(base) && ReplacementsSealed(log)
  {
    ChainIsFresh(base, starter);
    CompactionRetry.PendingLedger(base, starter, NextSeq(base), started, TransactionId(started.generation), more);
    WaitsMembers(log, base, starter, started, more);
  }

  // ---------------------------------------------------------------- writes

  lemma WaitGrows(log: seq<Event>, base: seq<Event>, starter: string, started: Replacement, more: seq<Event>, e: Event)
    requires Waits(log, base, starter, started, more) && Allowed(log, Writes(e))
    ensures Waits(log + [e], base, starter, started, more + [e])
  {
    GrownOrdered(log, e);
    assert log + [e] == PendingLog(base, starter, NextSeq(base), started, TransactionId(started.generation), more + [e]);
  }

  lemma RuinGrows(log: seq<Event>, e: Event)
    requires Ruined(log)
    ensures Ruined(log + [e])
  {
    forall later ensures Project(log + [e] + later).Err? {
      assert log + [e] + later == log + ([e] + later);
      assert Project(log + ([e] + later)).Err?;
    }
  }

  lemma RuinIsFinal(log: seq<Event>)
    requires Ruined(log)
    ensures Project(log).Err?
  {
    assert log + [] == log;
    assert Project(log + []).Err?;
  }

  // ---------------------------------------------------------------- attempts on a half-done log

  lemma WaitingAttempt(log: seq<Event>, base: seq<Event>, starter: string, started: Replacement, more: seq<Event>,
        owner: string, retain: int, r: Replacement)
    requires Waits(log, base, starter, started, more) && Allowed(log, Compacts(owner, retain, r))
    ensures r.generation == started.generation && Attempt(log, retain, owner, NextSeq(log), r)
    ensures After(log, Compacts(owner, retain, r)) == log + AttemptEvents(log, owner, NextSeq(log), r, TransactionId(r.generation))
  {
    var tx, start := TransactionId(r.generation), CompactionStartEvent(owner, 0, r, TransactionId(r.generation));
    WaitsFolds(log, base, starter, started, more);
    ProjectByListing(log);
    WaitsConflicts(log, base, starter, started, more, owner, r);
    WaitsShadow(log, base, starter, started, more);
    AddOrdered(log, start);
    if owner != starter { AddNew(log, start); }
    CompactAppends(log, owner, r, tx);
  }

  lemma WaitsShadow(log: seq<Event>, base: seq<Event>, starter: string, started: Replacement, more: seq<Event>)
    requires Waits(log, base, starter, started, more) && Applies(log) && MetaOf(log) == MetaOf(base)
    ensures forall x :: x in MetaOf(log).shadowed ==> OnLog(log, x) && x < NextSeq(log)
  {
    WaitsMembers(log, base, starter, started, more);
    AddOrdered(log, CompactionStartEvent("", 0, started, ""));
    forall x | x in MetaOf(log).shadowed ensures OnLog(log, x) && x < NextSeq(log) {
      var e :| e in base && e.seqNo == x;
      assert e in log;
    }
  }

  /** What an attempt makes of a half-done log. */
  lemma WaitingAttemptEnds(log: seq<Event>, base: seq<Event>, starter: string, started: Replacement, more: seq<Event>,
        owner: string, retain: int, r: Replacement)
    requires Waits(log, base, starter, started, more) && Allowed(log, Compacts(owner, retain, r))
    ensures var after := After(log, Compacts(owner, retain, r));
            && (Project(after).Ok? <==> !Conflicts(log, owner, r))
            && (Project(after).Ok? ==> IsRewrittenBy(log, after, r) && Chained(after))
            && (Project(after).Err? ==> Ruined(after))
  {
    var tx, at := TransactionId(r.generation), NextSeq(log);
    var after := After(log, Compacts(owner, retain, r));
    WaitingAttempt(log, base, starter, started, more, owner, retain, r);
    WaitsFolds(log, base, starter, started, more);
    WaitsConflicts(log, base, starter, started, more, owner, r);
    RetrySealsExactly(base, starter, NextSeq(base), started, tx, more, retain, owner, at, r);
    if Project(after).Ok? { WaitingSeals(log, base, started, more, owner, retain, r); }
  }

  /** Sealing the pending marker makes the log a chain again. */
  lemma WaitingSeals(log: seq<Event>, base: seq<Event>, started: Replacement, more: seq<Event>,
        owner: string, retain: int, r: Replacement)
    requires Waits(log, base, owner, started, more) && Allowed(log, Compacts(owner, retain, r)) && r.sourceSeqs == started.sourceSeqs
    ensures Chained(After(log, Compacts(owner, retain, r)))
  {
    var tx, at := TransactionId(r.generation), NextSeq(log);
    var after := log + SealEvents(owner, at, r, tx);
    WaitingAttempt(log, base, owner, started, more, owner, retain, r);
    WaitsConflicts(log, base, owner, started, more, owner, r);
    assert After(log, Compacts(owner, retain, r)) == after;
    WaitingReplaces(log, base, owner, started, more, at, r);
    SealedChain(log, base, owner, started, more, at, retain, r);
  }

  lemma WaitingReplaces(log: seq<Event>, base: seq<Event>, owner: string, started: Replacement, more: seq<Event>, at: nat, r: Replacement)
    requires Waits(log, base, owner, started, more) && r.generation == started.generation && r.sourceSeqs == started.sourceSeqs
    requires 0 < at && r.seqNo == at + 1 && forall e :: e in log ==> e.seqNo < at
    ensures var after := log + SealEvents(owner, at, r, TransactionId(r.generation));
            && FoldLedger(log).Ok? && Replaces(log, after, r)
            && FoldLedger(after).value.transactions.Keys == FoldLedger(base).value.transactions.Keys + {TransactionId(r.generation)}
  {
    var tx := TransactionId(r.generation);
    WaitsFolds(log, base, owner, started, more);
    assert Started(r) == Started(started);
    SealReplaces(base, log, owner, at, r, tx);
    SealLedger(log, FoldLedger(log).value, owner, at, r, tx);
  }

  lemma SealedChain(log: seq<Event>, base: seq<Event>, owner: string, started: Replacement, more: seq<Event>, at: nat, retain: int, r: Replacement)
    requires Waits(log, base, owner, started, more) && r.generation == started.generation && r.seqNo == at + 1
    requires FoldLedger(log).Ok? && Replaces(log, log + SealEvents(owner, at, r, TransactionId(r.generation)), r)
    requires FoldLedger(log + SealEvents(owner, at, r, TransactionId(r.generation))).value.transactions.Keys
          == FoldLedger(base).value.transactions.Keys + {TransactionId(r.generation)}
    requires ReadyToReplace(log, retain, r)
    ensures Chained(log + SealEvents(owner, at, r, TransactionId(r.generation)))
  {
    var tx := TransactionId(r.generation);
    var after := log + SealEvents(owner, at, r, tx);
    WaitsFolds(log, base, owner, started, more);
    ReplaceMeta(log, after, r);
    SealMembers(log, owner, at, r, tx);
    ChainedReplacements(log, after, r);
    SealedIsChained(log, base, owner, started, more, after, retain, r);
  }

  lemma SealMembers(log: seq<Event>, owner: string, at: nat, r: Replacement, tx: string)
    ensures forall e :: e in log + SealEvents(owner, at, r, tx) ==>
              e in log || (e.id.CompactionId? && e.id.generation == r.generation && !e.payload.CompactionStart?
                           && (e.payload.SurfaceReplacement? ==> e.seqNo == at + 1))
    ensures forall e :: e in log ==> e in log + SealEvents(owner, at, r, tx)
  {
  }

  lemma SealedIsChained(log: seq<Event>, base: seq<Event>, owner: string, started: Replacement, more: seq<Event>,
        after: seq<Event>, retain: int, r: Replacement)
    requires Waits(log, base, owner, started, more) && r.generation == started.generation
    requires ReadyToReplace(log, retain, r) && Applies(log) && MetaOf(log) == MetaOf(base)
    requires FoldLedger(after).Ok? && FoldLedger(after).value.transactions.Keys
          == FoldLedger(base).value.transactions.Keys + {TransactionId(r.generation)}
    requires Ordered(after) && Applies(after) && ReplacementsSealed(after) && MetaOf(after).generation == r.generation
    requires MetaOf(after).shadowed == MetaOf(log).shadowed + SourceSet(r.sourceSeqs)
    requires forall e :: e in log ==> e in after
    requires forall e :: e in after ==> e in log || (e.id.CompactionId? && e.id.generation == r.generation && !e.payload.CompactionStart?)
    ensures Chained(after)
  {
    WaitsMembers(log, base, owner, started, more);
    forall id | id in FoldLedger(after).value.transactions ensures OldTransaction(id, MetaOf(after).generation) {
      OlderTransaction(base, id, TransactionId(r.generation), r.generation);
    }
    forall x | x in MetaOf(after).shadowed ensures OnLog(after, x) {
      ReplacedShadow(log, base, owner, started, more, after, retain, r, x);
    }
  }

  lemma ReplacedShadow(log: seq<Event>, base: seq<Event>, owner: string, started: Replacement, more: seq<Event>,
        after: seq<Event>, retain: int, r: Replacement, x: nat)
    requires Waits(log, base, owner, started, more) && ReadyToReplace(log, retain, r) && Applies(log) && MetaOf(log) == MetaOf(base)
    requires x in MetaOf(log).shadowed + SourceSet(r.sourceSeqs) && forall e :: e in log ==> e in after
    ensures OnLog(after, x)
  {
    if x in MetaOf(log).shadowed {
      WaitsShadow(log, base, owner, started, more);
      var e :| e in log && e.seqNo == x;
      assert e in after;
    } else {
      ProjectByListing(log);
      var cut, p := SelectionFacts(log, retain, MetaOf(log).shadowed, r.sourceSeqs);
      var e :| e in log && e.seqNo == x && IsSurface(e.payload);
      assert e in after;
    }
  }

  // ---------------------------------------------------------------- failing attempts

  lemma FirstFailure(log: seq<Event>, owner: string, retain: int, r: Replacement)
    requires Chained(log) && Allowed(log, Fails(owner, retain, r))
    ensures Waits(After(log, Fails(owner, retain, r)), log, owner, r, [])
    ensures Project(After(log, Fails(owner, retain, r))) == Project(log)
    ensures !ForeignMarker(log, owner, r.generation)
  {
    var tx, after := TransactionId(r.generation), After(log, Fails(owner, retain, r));
    var start := CompactionStartEvent(owner, 0, r, tx);
    ProjectByListing(log);
    ChainedReady(log, retain, owner, r);
    ChainedHasNoMarker(log, owner, r);
    ChainIsFresh(log, owner);
    AddNew(log, start);
    AddOrdered(log, start);
    StartIsInvisible(log, owner, NextSeq(log), r, tx);
    assert after == PendingLog(log, owner, NextSeq(log), r, tx, []);
  }

  lemma LaterFailure(log: seq<Event>, base: seq<Event>, starter: string, started: Replacement, more: seq<Event>,
        owner: string, retain: int, r: Replacement)
    requires Waits(log, base, starter, started, more) && Allowed(log, Fails(owner, retain, r))
    ensures ForeignMarker(log, owner, r.generation) <==> owner != starter
    ensures owner == starter ==> After(log, Fails(owner, retain, r)) == log
    ensures owner != starter ==> Ruined(After(log, Fails(owner, retain, r)))
  {
    var tx, start := TransactionId(r.generation), CompactionStartEvent(owner, 0, r, TransactionId(r.generation));
    WaitsFolds(log, base, starter, started, more);
    ProjectByListing(log);
    WaitsConflicts(log, base, starter, started, more, owner, r);
    if owner != starter {
      AddNew(log, start);
      var written := CompactionStartEvent(owner, NextSeq(log), r, tx);
      SecondStartFails(log, FoldLedger(log).value, owner, NextSeq(log), r, tx);
      NeverProjects(log, written, []);
      assert [written] + [] == [written];
    }
  }

  // ---------------------------------------------------------------- every run

  lemma FreshAttemptEnds(log: seq<Event>, owner: string, retain: int, r: Replacement)
    requires Chained(log) && Allowed(log, Compacts(owner, retain, r))
    ensures var after := After(log, Compacts(owner, retain, r));
            !Conflicts(log, owner, r) && IsRewrittenBy(log, after, r) && Chained(after)
  {
    ProjectByListing(log);
    ChainedHasNoMarker(log, owner, r);
    ChainedCommit(log, retain, owner, r);
    ChainSeals(log, retain, owner, r);
  }

  /** What an attempt that reaches its sealing batch makes of any such log. */
  lemma AttemptEnds(log: seq<Event>, owner: string, retain: int, r: Replacement)
    requires InChain(log) && Allowed(log, Compacts(owner, retain, r))
    ensures var after := After(log, Compacts(owner, retain, r));
            && (Project(after).Ok? <==> !Conflicts(log, owner, r))
            && (Project(after).Ok? ==> IsRewrittenBy(log, after, r) && Chained(after))
            && (Project(after).Err? ==> Ruined(after))
  {
    if Chained(log) {
      FreshAttemptEnds(log, owner, retain, r);
    } else if HalfDone(log) {
      var base, starter, started, more :| Waits(log, base, starter, started, more);
      WaitingAttemptEnds(log, base, starter, started, more, owner, retain, r);
    } else {
      RuinIsFinal(log);
      assert false;
    }
  }

  lemma FailureEnds(log: seq<Event>, owner: string, retain: int, r: Replacement)
    requires InChain(log) && Allowed(log, Fails(owner, retain, r))
    ensures var after := After(log, Fails(owner, retain, r));
            && (Project(after).Ok? <==> !ForeignMarker(log, owner, r.generation))
            && (Project(after).Ok? ==> Project(after) == Project(log) && HalfDone(after))
            && (Project(after).Err? ==> Ruined(after))
  {
    var after := After(log, Fails(owner, retain, r));
    if Chained(log) {
      FirstFailure(log, owner, retain, r);
    } else if HalfDone(log) {
      var base, starter, started, more :| Waits(log, base, starter, started, more);
      LaterFailure(log, base, starter, started, more, owner, retain, r);
      if owner != starter { RuinIsFinal(after); }
    } else {
      RuinIsFinal(log);
      assert false;
    }
  }

  lemma WriteStays(log: seq<Event>, e: Event)
    requires InChain(log) && Allowed(log, Writes(e))
    ensures InChain(log + [e])
  {
    if Chained(log) {
      ChainGrows(log, e);
    } else if HalfDone(log) {
      var base, starter, started, more :| Waits(log, base, starter, started, more);
      WaitGrows(log, base, starter, started, more, e);
    } else {
      RuinGrows(log, e);
    }
  }

  /** Every log of such a run is a chain, a chain with one pending marker, or refused for good. */
  lemma {:induction false} ChainHolds(moves: seq<Move>)
    ensures InChain(LogOf(moves))
  {
    if |moves| == 0 {
      ChainStarts();
    } else {
      var log, move := LogOf(moves[..|moves| - 1]), moves[|moves| - 1];
      ChainHolds(moves[..|moves| - 1]);
      if Allowed(log, move) {
        match move {
          case Writes(e) => WriteStays(log, e);
          case Compacts(owner, retain, r) => AttemptEnds(log, owner, retain, r);
          case Fails(owner, retain, r) => FailureEnds(log, owner, retain, r);
        }
      }
    }
  }

  /** Every compaction of a run, after any number of successful and failed ones by any loops: nothing
      is assumed of its transaction, its ids or the older replacements. It is the list rewrite unless
      the log holds a marker of its generation by another owner or for other sources, and then, and
      only then, the log is refused for good. */
  lemma EveryCompactionRewrites(moves: seq<Move>, owner: string, retain: int, r: Replacement)
    requires Allowed(LogOf(moves), Compacts(owner, retain, r))
    ensures var log, after := LogOf(moves), After(LogOf(moves), Compacts(owner, retain, r));
            && (Project(after).Ok? <==> !Conflicts(log, owner, r))
            && (Project(after).Ok? ==> IsRewrittenBy(log, after, r))
            && (Project(after).Err? ==> forall later :: Project(after + later).Err?)
  {
    ChainHolds(moves);
    AttemptEnds(LogOf(moves), owner, retain, r);
  }

  /** Every failing compactor of a run: the model sees no difference, unless another owner's marker
      makes its own a second start. */
  lemma EveryFailureIsInvisible(moves: seq<Move>, owner: string, retain: int, r: Replacement)
    requires Allowed(LogOf(moves), Fails(owner, retain, r))
    ensures var log, after := LogOf(moves), After(LogOf(moves), Fails(owner, retain, r));
            && (Project(after).Ok? <==> !ForeignMarker(log, owner, r.generation))
            && (Project(after).Ok? ==> Project(after) == Project(log))
            && (Project(after).Err? ==> forall later :: Project(after + later).Err?)
  {
    ChainHolds(moves);
    FailureEnds(LogOf(moves), owner, retain, r);
  }

  /** A failing compactor on a log without such a marker leaves it pending, as the retry theorem
      assumes. */
  lemma FailureLeavesPending(moves: seq<Move>, owner: string, retain: int, r: Replacement, more: seq<Event>)
    requires Allowed(LogOf(moves), Fails(owner, retain, r)) && Uncompacted(more)
    requires forall e :: e in LogOf(moves) ==> !IsMarker(e, r.generation)
    ensures Pending(LogOf(moves), owner, NextSeq(LogOf(moves)), r, TransactionId(r.generation), more)
    ensures After(LogOf(moves), Fails(owner, retain, r)) + more
         == PendingLog(LogOf(moves), owner, NextSeq(LogOf(moves)), r, TransactionId(r.generation), more)
  {
    var log := LogOf(moves);
    ChainHolds(moves);
    if HalfDone(log) {
      var base, starter, started, more0 :| Waits(log, base, starter, started, more0);
      WaitsFolds(log, base, starter, started, more0);
      ProjectByListing(log);
      WaitsMembers(log, base, starter, started, more0);
    } else if Ruined(log) {
      RuinIsFinal(log);
    }
    FirstFailure(log, owner, retain, r);
    ChainIsFresh(log, owner);
    ProjectByListing(log);
  }
}
