/** How far "selection never breaks pairing" reaches. The recovery's synthetic results carry no
    source sequences (session/fenced.go:318-322), and for those the selection has no link to
    follow: the pairing then survives exactly when no such pair is split. */
module SelectionLimits {
  import opened Events
  import opened Surface
  import opened ProjectionLemmas
  import opened Selection
  import opened Compaction
  import opened CompactionTheorems
  import Recovery
  import Store

  /** Results that do record sources record the assistant messages of their call. */
  ghost predicate LinkedIfSourced(events: seq<Event>) {
    forall r :: r in events && r.payload.ToolResult? ==> forall s :: s in r.sources ==> AnsweredBy(events, r, s)
  }

  ghost predicate SingleResults(events: seq<Event>) {
    forall a, b :: a in events && b in events && a.payload.ToolResult? && b.payload.ToolResult? && a.call == b.call ==> a == b
  }

  /** A visible call and its unlinked visible result. */
  ghost predicate UnlinkedPair(events: seq<Event>, shadowed: set<nat>, a: Event, r: Event) {
    && a in events && a.payload.AssistantMessage? && a.seqNo !in shadowed
    && r in events && r.payload.ToolResult? && r.sources == [] && r.seqNo !in shadowed
    && r.call != "" && r.call in a.payload.calls
  }

  ghost predicate SplitsNoUnlinkedPair(events: seq<Event>, shadowed: set<nat>, out: seq<nat>) {
    forall a, r :: UnlinkedPair(events, shadowed, a, r) ==> (a.seqNo in out <==> r.seqNo in out)
  }

  lemma {:induction false} LastResultOf(events: seq<Event>, r: Event)
    requires r in events && r.payload.ToolResult? && SingleResults(events)
    ensures LastResult(events, r.call) == Some(r.seqNo)
  {
    var last := events[|events| - 1];
    var before := events[..|events| - 1];
    assert events == before + [last];
    if last.payload.ToolResult? && last.call == r.call {
      assert last == r;
    } else {
      assert forall x :: x in before ==> x in events;
      LastResultOf(before, r);
    }
  }

  lemma {:induction false} LastAssistantOf(events: seq<Event>, a: Event, call: string)
    requires a in events && a.payload.AssistantMessage? && call in a.payload.calls && UniqueCalls(events)
    ensures LastAssistant(events, call) == Some(a.seqNo)
  {
    var last := events[|events| - 1];
    var before := events[..|events| - 1];
    assert events == before + [last];
    if last.payload.AssistantMessage? && call in last.payload.calls {
      assert last == a;
    } else {
      assert forall x :: x in before ==> x in events;
      LastAssistantOf(before, a, call);
    }
  }

  lemma {:induction false} LastAssistantFound(events: seq<Event>, call: string)
    requires LastAssistant(events, call).Some?
    ensures exists a :: a in events && a.payload.AssistantMessage? && call in a.payload.calls && a.seqNo == LastAssistant(events, call).value
  {
    var last := events[|events| - 1];
    if last.payload.AssistantMessage? && call in last.payload.calls {
      assert last in events;
    } else {
      var before := events[..|events| - 1];
      LastAssistantFound(before, call);
      var a :| a in before && a.payload.AssistantMessage? && call in a.payload.calls && a.seqNo == LastAssistant(before, call).value;
      assert a in events;
    }
  }

  /** A split unlinked pair breaks the pairing. */
  lemma SplitBreaksPairing(events: seq<Event>, shadowed: set<nat>, out: seq<nat>, a: Event, r: Event)
    requires UniqueCalls(events) && SingleResults(events)
    requires UnlinkedPair(events, shadowed, a, r) && !(a.seqNo in out <==> r.seqNo in out)
    ensures !ValidPairing(events, shadowed + SourceSet(out))
  {
    var after := shadowed + SourceSet(out);
    LastAssistantOf(events, a, r.call);
    LastResultOf(events, r);
    var i :| 0 <= i < |events| && events[i] == a;
    var k :| 0 <= k < |events| && events[k] == r;
    if a.seqNo in out {
      assert a.seqNo in ResultSources(events, events[k]) && a.seqNo in after && events[k].seqNo !in after;
      assert !ResultsKeepSources(events, after);
    } else {
      assert r.call in events[i].payload.calls && LastResult(events, r.call).value in after;
      assert !CallsKeepResults(events, after);
    }
  }

  /** Pairing after a selection, exactly: it stays valid if and only if the selection splits no
      call from a result that records no sources. */
  lemma UnlinkedResultsDecide(events: seq<Event>, shadowed: set<nat>, cut: nat, p: set<nat>)
    requires Ordered(events) && LinkedIfSourced(events) && UniqueCalls(events) && SingleResults(events)
    requires ValidPairing(events, shadowed)
    requires cut <= |SurfaceEvents(events, shadowed)|
    requires PairClosed(SurfaceEvents(events, shadowed), cut) && LinkClosed(SurfaceEvents(events, shadowed), p)
    ensures var out := Unprotected(SurfaceEvents(events, shadowed)[..cut], p);
            ValidPairing(events, shadowed + SourceSet(out)) <==> SplitsNoUnlinkedPair(events, shadowed, out)
  {
    var out := Unprotected(SurfaceEvents(events, shadowed)[..cut], p);
    var after := shadowed + SourceSet(out);
    if !SplitsNoUnlinkedPair(events, shadowed, out) {
      var a, r :| UnlinkedPair(events, shadowed, a, r) && !(a.seqNo in out <==> r.seqNo in out);
      SplitBreaksPairing(events, shadowed, out, a, r);
    } else {
      forall i, call {:trigger call in events[i].payload.calls} |
        0 <= i < |events| && events[i].payload.AssistantMessage? && call in events[i].payload.calls && call != ""
        && events[i].seqNo !in after && LastResult(events, call).Some?
        ensures LastResult(events, call).value !in after
      {
        VisibleCallKeepsResult(events, shadowed, cut, p, events[i], call);
      }
      forall i | 0 <= i < |events| && events[i].payload.ToolResult? && events[i].seqNo !in after
        ensures ResultSources(events, events[i]) !! after
      {
        VisibleResultKeepsSources(events, shadowed, cut, p, i);
      }
    }
  }

  lemma VisibleCallKeepsResult(events: seq<Event>, shadowed: set<nat>, cut: nat, p: set<nat>, a: Event, call: string)
    requires Ordered(events) && LinkedIfSourced(events) && UniqueCalls(events) && ValidPairing(events, shadowed)
    requires cut <= |SurfaceEvents(events, shadowed)|
    requires PairClosed(SurfaceEvents(events, shadowed), cut) && LinkClosed(SurfaceEvents(events, shadowed), p)
    requires SplitsNoUnlinkedPair(events, shadowed, Unprotected(SurfaceEvents(events, shadowed)[..cut], p))
    requires a in events && a.payload.AssistantMessage? && call in a.payload.calls && call != "" && LastResult(events, call).Some?
    requires a.seqNo !in shadowed + SourceSet(Unprotected(SurfaceEvents(events, shadowed)[..cut], p))
    ensures LastResult(events, call).value !in shadowed + SourceSet(Unprotected(SurfaceEvents(events, shadowed)[..cut], p))
  {
    LastResultFound(events, call);
    var r :| r in events && r.payload.ToolResult? && r.call == call && r.seqNo == LastResult(events, call).value;
    assert r.seqNo !in shadowed by {
      var i :| 0 <= i < |events| && events[i] == a;
      assert call in events[i].payload.calls;
    }
    if r.sources == [] {
      assert UnlinkedPair(events, shadowed, a, r);
    } else {
      SourcedResultFollowsCall(events, shadowed, cut, p, a, r);
    }
  }

  lemma SourcedResultFollowsCall(events: seq<Event>, shadowed: set<nat>, cut: nat, p: set<nat>, a: Event, r: Event)
    requires Ordered(events) && LinkedIfSourced(events) && UniqueCalls(events)
    requires cut <= |SurfaceEvents(events, shadowed)|
    requires PairClosed(SurfaceEvents(events, shadowed), cut) && LinkClosed(SurfaceEvents(events, shadowed), p)
    requires a in events && a.payload.AssistantMessage? && r in events && r.payload.ToolResult? && r.call in a.payload.calls
    requires r.sources != [] && a.seqNo !in shadowed && r.seqNo !in shadowed
    requires a.seqNo !in Unprotected(SurfaceEvents(events, shadowed)[..cut], p)
    ensures r.seqNo !in Unprotected(SurfaceEvents(events, shadowed)[..cut], p)
  {
    var surface := SurfaceEvents(events, shadowed);
    SurfaceMembers(events, shadowed);
    var m := SurfacePosition(surface, a);
    var k := SurfacePosition(surface, r);
    assert Needs(surface, m, k);
    assert a.seqNo in p ==> r.seqNo in p by {
      assert AnsweredBy(events, r, r.sources[0]);
      var b :| b in events && b.seqNo == r.sources[0] && b.payload.AssistantMessage? && r.call in b.payload.calls;
      assert b == a && LinkHolds(r, p);
      assert a.seqNo in p ==> a.seqNo in SourceSet(r.sources) * p;
    }
    UnprotectedMembers(surface[..cut], p);
    if m < cut {
      assert surface[..cut][m] == a;
    } else {
      SurfaceOrdered(events, shadowed);
      assert forall i :: 0 <= i < cut ==> surface[..cut][i].seqNo != r.seqNo;
    }
  }

  lemma VisibleResultKeepsSources(events: seq<Event>, shadowed: set<nat>, cut: nat, p: set<nat>, i: nat)
    requires Ordered(events) && LinkedIfSourced(events) && UniqueCalls(events) && ValidPairing(events, shadowed)
    requires cut <= |SurfaceEvents(events, shadowed)|
    requires PairClosed(SurfaceEvents(events, shadowed), cut) && LinkClosed(SurfaceEvents(events, shadowed), p)
    requires SplitsNoUnlinkedPair(events, shadowed, Unprotected(SurfaceEvents(events, shadowed)[..cut], p))
    requires i < |events| && events[i].payload.ToolResult?
    requires events[i].seqNo !in shadowed + SourceSet(Unprotected(SurfaceEvents(events, shadowed)[..cut], p))
    ensures ResultSources(events, events[i]) !! shadowed + SourceSet(Unprotected(SurfaceEvents(events, shadowed)[..cut], p))
  {
    var out := Unprotected(SurfaceEvents(events, shadowed)[..cut], p);
    var r := events[i];
    assert r in events && ResultSources(events, r) !! shadowed;
    forall s | s in ResultSources(events, r) ensures s !in out {
      if r.sources == [] {
        LastAssistantFound(events, r.call);
        var a :| a in events && a.payload.AssistantMessage? && r.call in a.payload.calls && a.seqNo == s;
        assert UnlinkedPair(events, shadowed, a, r);
      } else if s in out {
        CallFollowsResult(events, shadowed, cut, p, r, s);
      }
    }
  }

  /** A commit over such results, exactly: the log still projects if and only if the selection splits
      no call from a result that records no sources. */
  lemma UnlinkedCommitExactly(events: seq<Event>, retain: int, owner: string, first: nat, r: Replacement, tx: string)
    requires ReadyToCommit(events, retain, first, r, tx)
    requires LinkedIfSourced(events) && UniqueCalls(events) && SingleResults(events)
    ensures Project(events + CommitEvents(owner, first, r, tx)).Ok?
       <==> SplitsNoUnlinkedPair(events, Project(events).value.shadowed, r.sourceSeqs)
  {
    var after := events + CommitEvents(owner, first, r, tx);
    ProjectByListing(events);
    var cut, p := SelectionFacts(events, retain, MetaOf(events).shadowed, r.sourceSeqs);
    SelectionIsOnList(events, retain, r);
    CommitReplaces(events, owner, first, r, tx);
    ReplaceMeta(events, after, r);
    ReplaceFoldsOnce(events, after, retain, r);
    ProjectByListing(after);
    UnlinkedResultsDecide(events, MetaOf(events).shadowed, cut, p);
  }

  // ---------------------------------------------------------------- a log where it fails

  function At(seqNo: nat, call: string, payload: Payload): Event {
    Event(seqNo, NoId, "s", "r", "t", "st", call, [], payload)
  }

  /** A call whose body was dispatched, and a message that arrived before the worker crashed. */
  const CRASHED := [
    At(1, "", AssistantMessage("", "", ["c"])),
    At(2, "c", ToolDispatched),
    At(3, "", UserMessage("u"))]

  const NEXT := At(5, "", UserMessage("v"))

  /** The log after recovery settled the call and the next message arrived. */
  function RecoveredLog(): seq<Event> { Recovery.Recovered(CRASHED, "s") + [NEXT] }

  function Outcome(): Event { Store.Stored(Recovery.UnknownResult(CRASHED, "c", "s"), "s", 4) }

  lemma CrashedFolds()
    ensures Recovery.DraftKeys(CRASHED) == [] && Recovery.OpenSteps(CRASHED) == [] && Recovery.TurnsOf(CRASHED).open == 0
  {
    var a, b, c := CRASHED[0], CRASHED[1], CRASHED[2];
    FoldsPass([], a);
    FoldsPass([] + [a], b);
    FoldsPass([] + [a] + [b], c);
    assert CRASHED == [] + [a] + [b] + [c];
  }

  /** An event that is no chunk and starts or ends nothing passes these folds by. */
  lemma FoldsPass(log: seq<Event>, e: Event)
    requires !e.payload.AssistantChunk? && !e.payload.StepStart? && !e.payload.StepEnd? && !e.payload.TurnStart? && !e.payload.TurnEnd?
    ensures Recovery.DraftKeys(log + [e]) == Recovery.DraftKeys(log) && Recovery.OpenSteps(log + [e]) == Recovery.OpenSteps(log)
    ensures Recovery.TurnsOf(log + [e]) == Recovery.TurnsOf(log)
  {
    assert (log + [e])[..|log|] == log;
  }

  lemma CrashedOrder()
    ensures Recovery.CallOrder(CRASHED) == ["c"]
  {
    var a, b, c := CRASHED[0], CRASHED[1], CRASHED[2];
    assert CRASHED == [] + [a] + [b] + [c];
    OrderSnoc([], a);
    OrderSnoc([] + [a], b);
    OrderSnoc([] + [a] + [b], c);
    RememberFirst("c");
  }

  lemma OrderSnoc(log: seq<Event>, e: Event)
    ensures Recovery.CallOrder(log + [e])
         == if e.payload.AssistantMessage? then Recovery.RememberAll(Recovery.CallOrder(log), e.payload.calls)
            else if Recovery.NamesCall(e.payload) then Recovery.Remember(Recovery.CallOrder(log), e.call)
            else Recovery.CallOrder(log)
  {
    assert (log + [e])[..|log|] == log;
  }

  lemma RememberFirst(call: string)
    requires call != ""
    ensures Recovery.RememberAll([], [call]) == [call]
  {
    assert [call][..0] == [];
    assert Recovery.RememberAll([], []) == [];
  }

  lemma CrashedDangles()
    ensures Recovery.Dangling(CRASHED) == ["c"]
  {
    var log := CRASHED;
    CrashedOrder();
    assert log[..2][..1] == log[..1];
    assert Recovery.StateOf(log[..2], "c") == Recovery.CallDispatched;
    assert ["c"][..0] == [] && Recovery.DanglingIn(log, []) == [];
    assert [] + ["c"] == ["c"];
  }

  /** Recovery appends the unknown outcome and nothing else. */
  lemma RecoveredExactly()
    ensures Recovery.Recovered(CRASHED, "s") == CRASHED + [Outcome()]
  {
    var log := CRASHED;
    var e := Recovery.UnknownResult(log, "c", "s");
    CrashedFolds();
    CrashedDangles();
    assert ["c"][..0] == [] && Recovery.ResultEvents(log, [], "s") == [];
    assert Recovery.RecoveryEvents(log, "s") == [e];
    assert forall x :: x in log ==> x.id == NoId;
    assert [e][..0] == [] && Store.AppendedNew(log, "s", []) == log;
  }

  /** The same log around any outcome of the call that records no sources. */
  function LogWith(o: Event): seq<Event> { [CRASHED[0], CRASHED[1], CRASHED[2], o, NEXT] }

  predicate Unsourced(o: Event) { o.seqNo == 4 && o.payload.ToolResult? && !o.payload.activation && o.call == "c" && o.sources == [] }

  lemma RecoveredIsWith()
    ensures RecoveredLog() == LogWith(Outcome()) && Unsourced(Outcome())
  {
    RecoveredExactly();
  }

  lemma WithOrdered(o: Event)
    requires Unsourced(o)
    ensures Ordered(LogWith(o)) && Uncompacted(LogWith(o)) && LogWith(o)[0] in LogWith(o) && o in LogWith(o)
  {
    assert LogWith(o)[3] == o;
  }

  lemma WithSurface(o: Event)
    requires Unsourced(o)
    ensures SurfaceEvents(LogWith(o), {}) == [CRASHED[0], CRASHED[2], o, NEXT]
  {
    var log := [] + [CRASHED[0]];
    SurfaceSnoc([], CRASHED[0], {});
    SurfaceSnoc(log, CRASHED[1], {});
    SurfaceSnoc(log + [CRASHED[1]], CRASHED[2], {});
    SurfaceSnoc(log + [CRASHED[1]] + [CRASHED[2]], o, {});
    SurfaceSnoc(log + [CRASHED[1]] + [CRASHED[2]] + [o], NEXT, {});
    assert LogWith(o) == log + [CRASHED[1]] + [CRASHED[2]] + [o] + [NEXT];
  }

  lemma WithUnprotected(o: Event)
    ensures Unprotected([CRASHED[0], CRASHED[2], o, NEXT][..2], {}) == [1, 3]
  {
    assert [CRASHED[0], CRASHED[2], o, NEXT][..2] == [] + [CRASHED[0]] + [CRASHED[2]];
    UnprotectedSnoc([], CRASHED[0], {});
    UnprotectedSnoc([] + [CRASHED[0]], CRASHED[2], {});
  }

  lemma WithSelection(o: Event)
    requires Unsourced(o)
    ensures IsSelection(LogWith(o), 2, {}, [1, 3])
  {
    var surface := [CRASHED[0], CRASHED[2], o, NEXT];
    WithSurface(o);
    WithUnprotected(o);
    assert PairClosed(surface, 2) && HasSeeds(surface, {}) && LinkClosed(surface, {}) by { WithPairs(o); }
    assert SelectedBy(surface, 2, 2, {}, [1, 3]);
    assert SelectedFrom(surface, 2, [1, 3]);
  }

  lemma WithPairs(o: Event)
    requires Unsourced(o)
    ensures var surface := [CRASHED[0], CRASHED[2], o, NEXT];
            PairClosed(surface, 2) && HasSeeds(surface, {}) && LinkClosed(surface, {})
  {
  }

  lemma WithPair(o: Event)
    requires Unsourced(o)
    ensures UnlinkedPair(LogWith(o), {}, CRASHED[0], o)
    ensures LinkedIfSourced(LogWith(o)) && UniqueCalls(LogWith(o)) && SingleResults(LogWith(o))
  {
    WithOrdered(o);
    var log := LogWith(o);
    assert forall e :: e in log && e.payload.ToolResult? ==> e == o;
    assert forall e :: e in log && e.payload.AssistantMessage? ==> e == CRASHED[0];
  }

  const SPLIT := Replacement(1, [1, 3], "summary", "f", 8)

  lemma WithIsReady(o: Event)
    requires Unsourced(o)
    ensures ReadyToCommit(LogWith(o), 2, 6, SPLIT, "compact-1") && Project(LogWith(o)).value.shadowed == {}
  {
    WithOrdered(o);
    UncompactedProjects(LogWith(o));
    WithSelection(o);
  }

  /** Keeping two events of that recovered log selects the call but not its result, and the committed
      log is refused. */
  lemma RecoveredResultIsSplit(owner: string)
    ensures Project(RecoveredLog()).Ok? && IsSelection(RecoveredLog(), 2, {}, SPLIT.sourceSeqs)
    ensures Project(RecoveredLog() + CommitEvents(owner, 6, SPLIT, "compact-1")).Err?
  {
    var o := Outcome();
    RecoveredIsWith();
    WithIsReady(o);
    WithPair(o);
    WithSelection(o);
    SplitsPair(LogWith(o), CRASHED[0], o);
    UnlinkedCommitExactly(LogWith(o), 2, owner, 6, SPLIT, "compact-1");
  }

  lemma SplitsPair(log: seq<Event>, a: Event, o: Event)
    requires UnlinkedPair(log, {}, a, o) && a.seqNo == 1 && o.seqNo == 4
    ensures !SplitsNoUnlinkedPair(log, {}, SPLIT.sourceSeqs)
  {
    assert 1 in SPLIT.sourceSeqs && 4 !in SPLIT.sourceSeqs;
  }
}
