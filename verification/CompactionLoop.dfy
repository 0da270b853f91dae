/** One durable compaction as the loop performs it (agent/loop.go:2181-2239): project, select,
    append the start marker, summarize, append the sealing batch; and what every log holds that grew by
    sealed compactions with ordinary events between them. */
module CompactionLoop {
  import opened Events
  import opened Surface
  import opened SurfaceProject
  import opened Selection
  import opened Compaction
  import opened CompactionTheorems
  import opened CompactionRetry
  import Store

  datatype Outcome =
    | Compacted
    | ProjectionFailed(error: ProjectError)
    | NothingToCompact
    | CompactorFailed

  /** What the compactor returns: a summary with its fingerprint, or an error. */
  datatype Summary = Summary(text: string, fingerprint: string) | SummaryError

  function Digits(n: nat): (s: string)
    ensures |s| > 0
  {
    if n < 10 then [('0' as int + n) as char] else Digits(n / 10) + [('0' as int + n % 10) as char]
  }

  /** The transaction id derives from the generation alone. */
  function TransactionId(generation: nat): string { "compact-" + Digits(generation) }

  lemma {:induction false} DigitsInjective(a: nat, b: nat)
    requires Digits(a) == Digits(b)
    ensures a == b
  {
    var s, t := Digits(a), Digits(b);
    if a >= 10 && b >= 10 {
      assert s[..|s| - 1] == Digits(a / 10) && t[..|t| - 1] == Digits(b / 10);
      assert s[|s| - 1] == t[|t| - 1];
      DigitsInjective(a / 10, b / 10);
    } else {
      assert |s| == |t|;
      assert s[0] == t[0];
    }
  }

  /** Different generations have different transactions. */
  lemma TransactionsDiffer(a: nat, b: nat)
    requires TransactionId(a) == TransactionId(b)
    ensures a == b
  {
    assert TransactionId(a)[8..] == Digits(a) && TransactionId(b)[8..] == Digits(b);
    DigitsInjective(a, b);
  }

  // ---------------------------------------------------------------- the idempotent append

  function NextSeq(events: seq<Event>): nat {
    if |events| == 0 then 1 else events[|events| - 1].seqNo + 1
  }

  /** An event whose id is on the log is not appended again. */
  function Add(events: seq<Event>, e: Event): seq<Event> {
    if e.id != NoId && e.id in Store.Ids(events) then events else events + [e.(seqNo := NextSeq(events))]
  }

  function AddStart(events: seq<Event>, owner: string, r: Replacement, tx: string): seq<Event> {
    Add(events, CompactionStartEvent(owner, 0, r, tx))
  }

  function AddSeal(events: seq<Event>, owner: string, r: Replacement, tx: string): seq<Event> {
    Add(Add(Add(events, CompactionSummaryEvent(owner, 0, r, tx)), CompactionReplacementEvent(owner, 0, r, tx)),
        CompactionEndEvent(owner, 0, r, tx))
  }

  lemma AddOrdered(events: seq<Event>, e: Event)
    requires Ordered(events)
    ensures Ordered(Add(events, e)) && forall x :: x in events ==> x.seqNo < NextSeq(events)
  {
    assert forall i :: 0 <= i < |events| ==> events[i].seqNo < NextSeq(events);
  }

  class Loop {
    const owner: string
    var events: seq<Event>

    constructor (name: string, log: seq<Event>)
      ensures owner == name && events == log
    {
      owner := name;
      events := log;
    }

    ghost predicate Valid()
      reads this
    {
      Ordered(events)
    }

    method Append(e: Event)
      requires Valid()
      modifies this
      ensures Valid() && events == Add(old(events), e)
    {
      AddOrdered(events, e);
      if e.id != NoId && e.id in Store.Ids(events) {
        return;
      }
      events := events + [e.(seqNo := NextSeq(events))];
    }

    /** The sealing batch. */
    method Seal(r: Replacement, tx: string)
      requires Valid()
      modifies this
      ensures Valid() && events == AddSeal(old(events), owner, r, tx)
    {
      Append(CompactionSummaryEvent(owner, 0, r, tx));
      Append(CompactionReplacementEvent(owner, 0, r, tx));
      Append(CompactionEndEvent(owner, 0, r, tx));
    }

    /** On failure before the start marker nothing is written; a failing compactor leaves the start
        marker, unless the loop wrote it before; and success seals the current selection. */
    method Compact(retain: int, summary: Summary) returns (outcome: Outcome)
      requires Valid()
      modifies this
      ensures Valid()
      ensures outcome.ProjectionFailed? <==> Project(old(events)).Err?
      ensures outcome.ProjectionFailed? || outcome.NothingToCompact? ==> events == old(events)
      ensures outcome.NothingToCompact? ==> IsSelection(old(events), retain, Project(old(events)).value.shadowed, [])
      ensures outcome.CompactorFailed? ==> summary.SummaryError? && Marked(old(events), retain)
      ensures outcome.Compacted? ==> summary.Summary? && SealedAs(old(events), retain, summary)
    {
      var projected := ProjectLog(events);
      if projected.Err? {
        return ProjectionFailed(projected.error);
      }
      var generation := projected.value.generation + 1;
      var shadowed := ShadowedSeqsRetainingTail(events, retain, projected.value.shadowed);
      if |shadowed| == 0 {
        return NothingToCompact;
      }
      var tx := TransactionId(generation);
      var text, fingerprint := if summary.Summary? then summary.text else "", if summary.Summary? then summary.fingerprint else "";
      Append(CompactionStartEvent(owner, 0, Replacement(generation, shadowed, text, fingerprint, 0), tx));
      ghost var marked := events;
      var r := Replacement(generation, shadowed, text, fingerprint, NextSeq(events) + 1);
      MarkerIsPlaceless(old(events), owner, r, tx);
      assert Decided(old(events), retain, owner, r);
      if summary.SummaryError? {
        return CompactorFailed;
      }
      Seal(r, tx);
      assert SealedBy(old(events), retain, summary, r);
      return Compacted;
    }

    /** Only the start marker of the selection was written. */
    ghost predicate Marked(before: seq<Event>, retain: int)
      reads this
    {
      exists r :: Decided(before, retain, owner, r) && events == AddStart(before, owner, r, TransactionId(r.generation))
    }

    ghost predicate SealedAs(before: seq<Event>, retain: int, summary: Summary)
      requires summary.Summary?
      reads this
    {
      exists r :: SealedBy(before, retain, summary, r)
    }

    /** The selection was sealed under the compactor's summary. */
    ghost predicate SealedBy(before: seq<Event>, retain: int, summary: Summary, r: Replacement)
      requires summary.Summary?
      reads this
    {
      && Decided(before, retain, owner, r) && r.summary == summary.text && r.fingerprint == summary.fingerprint
      && events == AddSeal(AddStart(before, owner, r, TransactionId(r.generation)), owner, r, TransactionId(r.generation))
    }
  }

  lemma MarkerIsPlaceless(before: seq<Event>, owner: string, r: Replacement, tx: string)
    ensures AddStart(before, owner, r, tx) == AddStart(before, owner, r.(seqNo := 0), tx)
  {
  }

  /** The current selection, one generation up, in the place the append gives it. */
  ghost predicate Decided(before: seq<Event>, retain: int, owner: string, r: Replacement) {
    && Project(before).Ok? && r.generation == Project(before).value.generation + 1
    && r.sourceSeqs != [] && IsSelection(before, retain, Project(before).value.shadowed, r.sourceSeqs)
    && r.seqNo == NextSeq(AddStart(before, owner, r, TransactionId(r.generation))) + 1
  }

  // ---------------------------------------------------------------- what an attempt appends

  /** No part of the sealing batch of this generation was written by this loop before. */
  ghost predicate Unsealed(events: seq<Event>, owner: string, generation: nat) {
    forall e :: e in events && e.id.CompactionId? && e.id.owner == owner && e.id.generation == generation ==> e.id.kind == "compact-start"
  }

  lemma AddNew(events: seq<Event>, e: Event)
    requires e.id == NoId || e.id !in Store.Ids(events)
    ensures Add(events, e) == events + [e.(seqNo := NextSeq(events))]
    ensures NextSeq(Add(events, e)) == NextSeq(events) + 1
    ensures Store.Ids(Add(events, e)) <= Store.Ids(events) + {e.id}
  {
    var after := events + [e.(seqNo := NextSeq(events))];
    assert forall x :: x in after <==> x in events || x == e.(seqNo := NextSeq(events));
  }

  lemma SealIds(events: seq<Event>, owner: string, generation: nat)
    requires Unsealed(events, owner, generation)
    ensures CompactionId(owner, "compact-summary", generation) !in Store.Ids(events)
    ensures CompactionId(owner, "compact-surface", generation) !in Store.Ids(events)
    ensures CompactionId(owner, "compact-end", generation) !in Store.Ids(events)
  {
  }

  lemma SealAppends(events: seq<Event>, owner: string, r: Replacement, tx: string)
    requires Unsealed(events, owner, r.generation) && r.seqNo == NextSeq(events) + 1
    ensures AddSeal(events, owner, r, tx) == events + SealEvents(owner, NextSeq(events), r, tx)
  {
    var at := NextSeq(events);
    var a, b, c := CompactionSummaryEvent(owner, 0, r, tx), CompactionReplacementEvent(owner, 0, r, tx), CompactionEndEvent(owner, 0, r, tx);
    SealIds(events, owner, r.generation);
    AddNew(events, a);
    AddNew(Add(events, a), b);
    AddNew(Add(Add(events, a), b), c);
    assert events + [a.(seqNo := at)] + [b.(seqNo := at + 1)] + [c.(seqNo := at + 2)] == events + SealEvents(owner, at, r, tx);
  }

  /** What a successful compaction appends, as the retry theorem speaks of it. */
  lemma CompactAppends(before: seq<Event>, owner: string, r: Replacement, tx: string)
    requires Unsealed(before, owner, r.generation) && r.seqNo == NextSeq(AddStart(before, owner, r, tx)) + 1
    ensures AddSeal(AddStart(before, owner, r, tx), owner, r, tx) == before + AttemptEvents(before, owner, NextSeq(before), r, tx)
  {
    var start := CompactionStartEvent(owner, 0, r, tx);
    if start.id in Store.Ids(before) {
      SealAppends(before, owner, r, tx);
    } else {
      AddNew(before, start);
      var next := Add(before, start);
      assert next == before + [CompactionStartEvent(owner, NextSeq(before), r, tx)];
      SealAppends(next, owner, r, tx);
      assert next + SealEvents(owner, NextSeq(next), r, tx) == before + CommitEvents(owner, NextSeq(before), r, tx);
    }
  }

  /** What a caller of a successful compaction gets: the model sees the old list with the sources
      replaced by the summary, one generation later. */
  lemma CompactedLogIsRewritten(before: seq<Event>, after: Loop, retain: int, summary: Summary, r: Replacement)
    requires Ordered(before) && Linked(before) && UniqueCalls(before) && summary.Summary?
    requires after.SealedBy(before, retain, summary, r)
    requires FreshTransaction(before, TransactionId(r.generation)) && ReplacementsSealed(before)
    requires Unsealed(before, after.owner, r.generation) && StartId(after.owner, r.generation) !in Store.Ids(before)
    requires r.seqNo !in Project(before).value.shadowed
    ensures IsRewrittenBy(before, after.events, r) && r.summary == summary.text
  {
    var start := CompactionStartEvent(after.owner, 0, r, TransactionId(r.generation));
    CompactAppends(before, after.owner, r, TransactionId(r.generation));
    AddNew(before, start);
    AddOrdered(before, start);
    CommitIsRewrite(before, retain, after.owner, NextSeq(before), r, TransactionId(r.generation));
  }

  // ---------------------------------------------------------------- chains of compactions

  /** What every log holds that grew by ordinary events and sealed compactions. */
  ghost predicate Chained(events: seq<Event>) {
    && Ordered(events) && Applies(events) && ReplacementsSealed(events)
    && (forall tx :: tx in FoldLedger(events).value.transactions ==> OldTransaction(tx, MetaOf(events).generation))
    && (forall e :: e in events && e.id.CompactionId? ==> e.id.generation <= MetaOf(events).generation)
    && (forall e :: e in events && e.payload.CompactionStart? ==> e.payload.generation <= MetaOf(events).generation)
    && (forall x :: x in MetaOf(events).shadowed ==> OnLog(events, x))
  }

  ghost predicate OldTransaction(tx: string, generation: nat) { exists k: nat :: k <= generation && tx == TransactionId(k) }

  ghost predicate OnLog(events: seq<Event>, seqNo: nat) { exists e :: e in events && e.seqNo == seqNo }

  /** The next transaction of a chain is always fresh, its ids are unused, and the sequence of its
      replacement is not shadowed. */
  lemma ChainIsFresh(events: seq<Event>, owner: string)
    requires Chained(events)
    ensures FreshTransaction(events, TransactionId(MetaOf(events).generation + 1))
    ensures Unsealed(events, owner, MetaOf(events).generation + 1)
    ensures StartId(owner, MetaOf(events).generation + 1) !in Store.Ids(events)
    ensures forall x :: x in MetaOf(events).shadowed ==> x < NextSeq(events)
  {
    var tx := TransactionId(MetaOf(events).generation + 1);
    if tx in FoldLedger(events).value.transactions {
      var k: nat :| k <= MetaOf(events).generation && tx == TransactionId(k);
      TransactionsDiffer(k, MetaOf(events).generation + 1);
    }
    AddOrdered(events, Entry(owner, "", 0, 0, [], StepEnd));
  }

  lemma ChainStarts()
    ensures Chained([])
  {
    UncompactedProjects([]);
    NoTransactions();
  }

  lemma NoTransactions()
    ensures FoldLedger([]) == Ok(EMPTY_LEDGER) && Sealed(EMPTY_LEDGER) == []
  {
  }

  lemma ChainGrows(events: seq<Event>, e: Event)
    requires Chained(events) && !e.id.CompactionId? && e.seqNo == NextSeq(events)
    requires !IsCompaction(e.payload) && !e.payload.SurfaceReplacement?
    ensures Chained(events + [e])
  {
    var after := events + [e];
    LedgerIgnores(events, [e]);
    GrownOrdered(events, e);
    assert MetaOf(after) == MetaOf(events);
    assert forall x :: x in after <==> x in events || x == e;
    forall x | x in MetaOf(events).shadowed ensures OnLog(after, x) {
      GrownHolds(events, e, x);
    }
  }

  lemma GrownOrdered(events: seq<Event>, e: Event)
    requires Ordered(events) && e.seqNo == NextSeq(events)
    ensures Ordered(events + [e])
  {
    assert forall i :: 0 <= i < |events| ==> events[i].seqNo < e.seqNo;
  }

  lemma GrownHolds(events: seq<Event>, e: Event, x: nat)
    requires OnLog(events, x)
    ensures OnLog(events + [e], x)
  {
    var y :| y in events && y.seqNo == x;
    assert y in events + [e];
  }

  lemma ChainLedger(events: seq<Event>, owner: string, first: nat, r: Replacement, tx: string)
    requires FreshTransaction(events, tx) && ValidSources(r.sourceSeqs) && r.seqNo == first + 2
    ensures FoldLedger(events + CommitEvents(owner, first, r, tx)).Ok?
    ensures FoldLedger(events + CommitEvents(owner, first, r, tx)).value.transactions.Keys
         == FoldLedger(events).value.transactions.Keys + {tx}
  {
    var start := CompactionStartEvent(owner, first, r, tx);
    var l0 := FoldLedger(events).value;
    LedgerAfterStart(l0, owner, first, r, tx);
    FoldLedgerSnoc(events, start);
    SealAfterStart(events + [start], owner, first + 1, r, tx);
    assert events + [start] + SealEvents(owner, first + 1, r, tx) == events + CommitEvents(owner, first, r, tx);
  }

  lemma SealAfterStart(log: seq<Event>, owner: string, at: nat, r: Replacement, tx: string)
    requires FoldLedger(log).Ok? && tx != "" && tx in FoldLedger(log).value.transactions
    requires FoldLedger(log).value.transactions[tx] == Started(r) && ValidSources(r.sourceSeqs) && r.seqNo == at + 1
    ensures FoldLedger(log + SealEvents(owner, at, r, tx)).Ok?
    ensures FoldLedger(log + SealEvents(owner, at, r, tx)).value.transactions.Keys == FoldLedger(log).value.transactions.Keys
  {
    SealLedger(log, FoldLedger(log).value, owner, at, r, tx);
  }

  /** A compaction of a chained log: the rewrite theorem applies without further conditions. */
  lemma ChainedCommit(events: seq<Event>, retain: int, owner: string, r: Replacement)
    requires Chained(events) && Linked(events) && UniqueCalls(events) && Decided(events, retain, owner, r)
    ensures ReadyToCommit(events, retain, NextSeq(events), r, TransactionId(r.generation)) && ValidSources(r.sourceSeqs)
    ensures AddSeal(AddStart(events, owner, r, TransactionId(r.generation)), owner, r, TransactionId(r.generation))
         == events + CommitEvents(owner, NextSeq(events), r, TransactionId(r.generation))
    ensures IsRewrittenBy(events, events + CommitEvents(owner, NextSeq(events), r, TransactionId(r.generation)), r)
  {
    var tx := TransactionId(r.generation);
    ChainedReady(events, retain, owner, r);
    CompactAppends(events, owner, r, tx);
    CommitIsRewrite(events, retain, owner, NextSeq(events), r, tx);
  }

  lemma ChainedReady(events: seq<Event>, retain: int, owner: string, r: Replacement)
    requires Chained(events) && Decided(events, retain, owner, r)
    ensures ReadyToCommit(events, retain, NextSeq(events), r, TransactionId(r.generation)) && ValidSources(r.sourceSeqs)
    ensures Unsealed(events, owner, r.generation) && StartId(owner, r.generation) !in Store.Ids(events)
  {
    var start := CompactionStartEvent(owner, 0, r, TransactionId(r.generation));
    ProjectByListing(events);
    ChainIsFresh(events, owner);
    AddNew(events, start);
    AddOrdered(events, start);
    SelectionIsOnList(events, retain, r);
  }

  lemma CommitMembers(events: seq<Event>, owner: string, first: nat, r: Replacement, tx: string)
    ensures forall e :: e in events + CommitEvents(owner, first, r, tx) ==>
              e in events || (e in CommitEvents(owner, first, r, tx) && e.id.CompactionId? && e.id.generation == r.generation)
    ensures forall e :: e in CommitEvents(owner, first, r, tx) && e.payload.SurfaceReplacement? ==> e.seqNo == first + 2
    ensures forall e :: e in CommitEvents(owner, first, r, tx) && e.payload.CompactionStart? ==> e.payload.generation == r.generation
    ensures forall e :: e in events ==> e in events + CommitEvents(owner, first, r, tx)
  {
  }

  lemma ChainedReplacements(events: seq<Event>, after: seq<Event>, r: Replacement)
    requires FoldLedger(events).Ok? && ReplacementsSealed(events) && Replaces(events, after, r) && r.seqNo > 0
    requires forall e :: e in after && e.payload.SurfaceReplacement? ==> e in events || e.seqNo == r.seqNo
    ensures ReplacementsSealed(after)
  {
    var rs := Sealed(FoldLedger(events).value);
    assert (rs + [r])[..|rs|] == rs;
  }

  lemma ChainedShadow(events: seq<Event>, after: seq<Event>, retain: int, r: Replacement, x: nat)
    requires Chained(events) && ReadyToReplace(events, retain, r) && x in MetaOf(events).shadowed + SourceSet(r.sourceSeqs)
    requires forall e :: e in events ==> e in after
    ensures OnLog(after, x)
  {
    if x in MetaOf(events).shadowed {
      var e :| e in events && e.seqNo == x;
      assert e in after;
    } else {
      ProjectByListing(events);
      var cut, p := SelectionFacts(events, retain, MetaOf(events).shadowed, r.sourceSeqs);
      var e :| e in events && e.seqNo == x && IsSurface(e.payload);
      assert e in after;
    }
  }

  /** A chain stays a chain. */
  lemma ChainSeals(events: seq<Event>, retain: int, owner: string, r: Replacement)
    requires Chained(events) && Linked(events) && UniqueCalls(events) && Decided(events, retain, owner, r)
    ensures Chained(events + CommitEvents(owner, NextSeq(events), r, TransactionId(r.generation)))
  {
    var tx, first := TransactionId(r.generation), NextSeq(events);
    var after := events + CommitEvents(owner, first, r, tx);
    ChainedCommit(events, retain, owner, r);
    CommitReplaces(events, owner, first, r, tx);
    ProjectByListing(events);
    ReplaceMeta(events, after, r);
    CommitMembers(events, owner, first, r, tx);
    ChainedReplacements(events, after, r);
    ChainLedger(events, owner, first, r, tx);
    forall id | id in FoldLedger(after).value.transactions ensures OldTransaction(id, MetaOf(after).generation) {
      OlderTransaction(events, id, tx, r.generation);
    }
    forall x | x in MetaOf(after).shadowed ensures OnLog(after, x) {
      ChainedShadow(events, after, retain, r, x);
    }
  }

  lemma OlderTransaction(events: seq<Event>, id: string, tx: string, generation: nat)
    requires Chained(events) && tx == TransactionId(generation) && generation == MetaOf(events).generation + 1
    requires id in FoldLedger(events).value.transactions.Keys + {tx}
    ensures OldTransaction(id, generation)
  {
    if id in FoldLedger(events).value.transactions {
      var k: nat :| k <= MetaOf(events).generation && id == TransactionId(k);
    }
  }
}
