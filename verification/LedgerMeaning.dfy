/** What the transaction fold accepts, without the fold: a log is accepted exactly when the events of
    each transaction, taken by themselves, are the beginning of a matched
    start/summary/replacement/end (session/surface.go:169-308). */
module LedgerMeaning {
  import opened Events
  import opened Surface

  /** The transaction an event belongs to. */
  function TxOf(p: Payload): Option<string> {
    match p
    case CompactionStart(_, tx, _) => Some(tx)
    case CompactionSummary(_, tx, _, _, _) => Some(tx)
    case SurfaceReplacement(_, tx, _, _, _) => Some(tx)
    case CompactionEnd(_, tx) => Some(tx)
    case _ => None
  }

  function TxEvents(events: seq<Event>, tx: string): seq<Event> {
    if |events| == 0 then []
    else
      var e := events[|events| - 1];
      TxEvents(events[..|events| - 1], tx) + (if TxOf(e.payload) == Some(tx) then [e] else [])
  }

  predicate WellNamed(p: Payload) { TxOf(p) != Some("") }

  predicate WellSourced(p: Payload) {
    match p
    case CompactionStart(_, _, sources) => ValidSources(sources)
    case CompactionSummary(_, _, sources, _, _) => ValidSources(sources)
    case SurfaceReplacement(_, _, sources, _, _) => ValidSources(sources)
    case _ => true
  }

  /** Sources are valid when there are some, none is zero and none is repeated. */
  lemma {:induction false} SourcesAreDistinct(s: seq<nat>)
    ensures ValidSources(s) <==> s != [] && 0 !in s && |SourceSet(s)| == |s|
  {
    CountedOnce(s);
  }

  ghost predicate NoneRepeated(s: seq<nat>) { forall i, j :: 0 <= i < j < |s| ==> s[i] != s[j] }

  lemma RepeatedSnoc(before: seq<nat>, x: nat)
    ensures NoneRepeated(before + [x]) <==> NoneRepeated(before) && x !in before
  {
    var s := before + [x];
    assert forall i :: 0 <= i < |before| ==> s[i] == before[i];
    assert s[|before|] == x;
  }

  lemma {:induction false} CountedOnce(s: seq<nat>)
    ensures |SourceSet(s)| <= |s|
    ensures |SourceSet(s)| == |s| <==> NoneRepeated(s)
  {
    if |s| > 0 {
      var before, x := s[..|s| - 1], s[|s| - 1];
      assert s == before + [x];
      CountedOnce(before);
      RepeatedSnoc(before, x);
      assert SourceSet(s) == SourceSet(before) + {x};
    }
  }

  /** At most one event of each kind, in order, each repeating what it must. */
  predicate Matched(es: seq<Event>) {
    && |es| <= 4
    && (|es| > 0 ==> es[0].payload.CompactionStart?)
    && (|es| > 1 ==> SummaryMatches(es[0].payload, es[1].payload))
    && (|es| > 2 ==> ReplacementMatches(es[1].payload, es[2].payload))
    && (|es| > 3 ==> EndMatches(es[0].payload, es[3].payload))
  }

  predicate SummaryMatches(start: Payload, p: Payload) {
    start.CompactionStart? && p.CompactionSummary? && p.generation == start.generation && p.sourceSeqs == start.sourceSeqs
  }

  predicate ReplacementMatches(summary: Payload, p: Payload) {
    && summary.CompactionSummary? && p.SurfaceReplacement?
    && p.generation == summary.generation && p.sourceSeqs == summary.sourceSeqs
    && p.summary == summary.summary && p.fingerprint == summary.fingerprint
  }

  predicate EndMatches(start: Payload, p: Payload) {
    start.CompactionStart? && p.CompactionEnd? && p.generation == start.generation
  }

  /** The state of a transaction whose events are `es`. */
  function StateFrom(es: seq<Event>): Transaction
    requires Matched(es)
  {
    if |es| == 0 then NEW_TRANSACTION
    else
      var start := es[0].payload;
      Transaction(start.generation, start.sourceSeqs,
                  if |es| > 1 then es[1].payload.summary else "", if |es| > 1 then es[1].payload.fingerprint else "",
                  true, |es| > 1, |es| > 2, if |es| > 2 then es[2].seqNo else 0, |es| > 3)
  }

  ghost predicate Accepted(events: seq<Event>) {
    && (forall e :: e in events ==> WellNamed(e.payload) && WellSourced(e.payload))
    && forall tx :: Matched(TxEvents(events, tx))
  }

  /** A ledger says of a transaction what its events say. */
  ghost predicate TellsOf(l: Ledger, es: seq<Event>, tx: string) {
    Matched(es) && Lookup(l, tx) == StateFrom(es) && (tx in l.transactions <==> es != [])
  }

  ghost predicate Tells(l: Ledger, events: seq<Event>) { forall tx :: TellsOf(l, TxEvents(events, tx), tx) }

  lemma TxSnoc(events: seq<Event>, tx: string)
    requires |events| > 0
    ensures TxEvents(events, tx)
         == TxEvents(events[..|events| - 1], tx)
            + (if TxOf(events[|events| - 1].payload) == Some(tx) then [events[|events| - 1]] else [])
  {
  }

  /** One more event of a matched transaction: the fold takes it exactly when it still matches. */
  lemma StepMatches(l: Ledger, es: seq<Event>, e: Event, tx: string)
    requires TxOf(e.payload) == Some(tx) && tx != "" && WellSourced(e.payload)
    requires Matched(es) && Lookup(l, tx) == StateFrom(es)
    ensures LedgerStep(l, e).Ok? <==> Matched(es + [e])
    ensures Matched(es + [e]) ==> LedgerStep(l, e) == Ok(Put(l, tx, StateFrom(es + [e])))
  {
    var more := es + [e];
    assert forall i :: 0 <= i < |es| ==> more[i] == es[i];
    assert more[|es|] == e;
  }

  lemma StepOther(l: Ledger, e: Event)
    requires TxOf(e.payload) == None
    ensures LedgerStep(l, e) == Ok(l)
  {
  }

  lemma StepRefused(l: Ledger, e: Event)
    requires !WellNamed(e.payload) || !WellSourced(e.payload)
    ensures LedgerStep(l, e).Err?
  {
  }

  /** What an accepted event of transaction `own` leaves true of any transaction. */
  lemma TellsAfter(l: Ledger, own: string, more: seq<Event>, es: seq<Event>, tx: string)
    requires Matched(more) && more != [] && TellsOf(l, es, tx)
    ensures TellsOf(Put(l, own, StateFrom(more)), if tx == own then more else es, tx)
  {
  }

  /** What one event does to the acceptance of a log, and to its ledger. */
  lemma AcceptStep(l: Ledger, events: seq<Event>, own: string)
    requires |events| > 0 && Tells(l, events[..|events| - 1])
    requires TxOf(events[|events| - 1].payload) == Some(own) && own != "" && WellSourced(events[|events| - 1].payload)
    ensures LedgerStep(l, events[|events| - 1]).Ok? <==> Matched(TxEvents(events, own))
    ensures LedgerStep(l, events[|events| - 1]).Ok? ==> Tells(LedgerStep(l, events[|events| - 1]).value, events)
  {
    var before, e := events[..|events| - 1], events[|events| - 1];
    var es := TxEvents(before, own);
    TxSnoc(events, own);
    assert TellsOf(l, es, own);
    StepMatches(l, es, e, own);
    if Matched(es + [e]) {
      forall tx ensures TellsOf(Put(l, own, StateFrom(es + [e])), TxEvents(events, tx), tx) {
        TxSnoc(events, tx);
        assert TellsOf(l, TxEvents(before, tx), tx);
        TellsAfter(l, own, es + [e], TxEvents(before, tx), tx);
        if tx != own { assert TxEvents(before, tx) + [] == TxEvents(before, tx); }
      }
    }
  }

  /** Events outside compactions and the events of other transactions change nothing. */
  lemma OthersSame(events: seq<Event>, tx: string)
    requires |events| > 0 && TxOf(events[|events| - 1].payload) != Some(tx)
    ensures TxEvents(events, tx) == TxEvents(events[..|events| - 1], tx)
  {
    assert TxEvents(events[..|events| - 1], tx) + [] == TxEvents(events[..|events| - 1], tx);
  }

  /** The fold accepts a log exactly when every transaction's own events match, and its ledger then
      says of each transaction what those events say. */
  lemma {:induction false} AcceptsExactly(events: seq<Event>)
    ensures FoldLedger(events).Ok? <==> Accepted(events)
    ensures FoldLedger(events).Ok? ==> Tells(FoldLedger(events).value, events)
  {
    if |events| > 0 {
      var before, e := events[..|events| - 1], events[|events| - 1];
      assert events == before + [e];
      AcceptsExactly(before);
      if FoldLedger(before).Err? {
        if Accepted(events) { AcceptedPrefix(events); }
      } else if !WellNamed(e.payload) || !WellSourced(e.payload) {
        StepRefused(FoldLedger(before).value, e);
      } else if TxOf(e.payload).None? {
        StepOther(FoldLedger(before).value, e);
        forall tx ensures TxEvents(events, tx) == TxEvents(before, tx) { OthersSame(events, tx); }
      } else {
        AcceptOne(events, TxOf(e.payload).value);
      }
    }
  }

  /** A log stays accepted when the transaction of its new event still matches. */
  lemma AcceptedSnoc(events: seq<Event>, own: string)
    requires |events| > 0 && Accepted(events[..|events| - 1])
    requires TxOf(events[|events| - 1].payload) == Some(own) && own != "" && WellSourced(events[|events| - 1].payload)
    ensures Accepted(events) <==> Matched(TxEvents(events, own))
  {
    var before := events[..|events| - 1];
    assert events == before + [events[|events| - 1]];
    forall tx | tx != own ensures Matched(TxEvents(events, tx)) {
      OthersSame(events, tx);
      assert Matched(TxEvents(before, tx));
    }
  }

  lemma AcceptOne(events: seq<Event>, own: string)
    requires |events| > 0 && FoldLedger(events[..|events| - 1]).Ok? && Accepted(events[..|events| - 1])
    requires Tells(FoldLedger(events[..|events| - 1]).value, events[..|events| - 1])
    requires TxOf(events[|events| - 1].payload) == Some(own) && own != "" && WellSourced(events[|events| - 1].payload)
    ensures FoldLedger(events).Ok? <==> Accepted(events)
    ensures FoldLedger(events).Ok? ==> Tells(FoldLedger(events).value, events)
  {
    AcceptStep(FoldLedger(events[..|events| - 1]).value, events, own);
    AcceptedSnoc(events, own);
  }

  lemma AcceptedPrefix(events: seq<Event>)
    requires |events| > 0 && Accepted(events)
    ensures Accepted(events[..|events| - 1])
  {
    var before := events[..|events| - 1];
    forall tx ensures Matched(TxEvents(before, tx)) {
      TxSnoc(events, tx);
      assert Matched(TxEvents(events, tx));
      var more := TxEvents(events, tx);
      assert forall i :: 0 <= i < |TxEvents(before, tx)| ==> more[i] == TxEvents(before, tx)[i];
    }
  }

  /** A sealed transaction is exactly a complete matched quadruple of its own events. */
  lemma SealedIsMatched(events: seq<Event>, tx: string)
    requires FoldLedger(events).Ok?
    ensures IsSealed(Lookup(FoldLedger(events).value, tx)) <==> |TxEvents(events, tx)| == 4
    ensures IsSealed(Lookup(FoldLedger(events).value, tx)) ==> Matched(TxEvents(events, tx))
    ensures IsSealed(Lookup(FoldLedger(events).value, tx)) ==>
              ToReplacement(Lookup(FoldLedger(events).value, tx)).seqNo == TxEvents(events, tx)[2].seqNo
  {
    AcceptsExactly(events);
  }
}
