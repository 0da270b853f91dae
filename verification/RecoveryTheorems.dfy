/** What recovery achieves: it settles every unknown outcome, closes exactly what is not waiting,
    keeps its terminal events ordered, and has nothing left to do the second time. */
module RecoveryTheorems {
  import opened Basics
  import opened Events
  import opened Store
  import opened Recovery

  // ---------------------------------------------------------------- what the batch contains

  lemma {:induction false} StateNeedsMention(log: seq<Event>, call: string)
    requires call != "" && StateOf(log, call) != CallPending
    ensures call in CallOrder(log)
  {
    var before, e := log[..|log| - 1], log[|log| - 1];
    if StateOf(before, call) != CallPending {
      StateNeedsMention(before, call);
      if e.payload.AssistantMessage? { RememberKeeps(CallOrder(before), e.payload.calls, call); }
    }
  }

  lemma {:induction false} RememberKeeps(order: seq<string>, calls: seq<string>, call: string)
    requires call in order
    ensures call in RememberAll(order, calls)
  {
    if |calls| > 0 {
      RememberKeeps(order, calls[..|calls| - 1], call);
    }
  }

  lemma {:induction false} RememberNames(order: seq<string>, calls: seq<string>)
    requires "" !in order
    ensures "" !in RememberAll(order, calls)
  {
    if |calls| > 0 {
      RememberNames(order, calls[..|calls| - 1]);
    }
  }

  lemma {:induction false} OrderNames(log: seq<Event>)
    ensures "" !in CallOrder(log)
  {
    if |log| > 0 {
      OrderNames(log[..|log| - 1]);
      var e := log[|log| - 1];
      if e.payload.AssistantMessage? { RememberNames(CallOrder(log[..|log| - 1]), e.payload.calls); }
    }
  }

  lemma {:induction false} DanglingInMembers(log: seq<Event>, order: seq<string>)
    ensures forall c :: c in DanglingIn(log, order) <==> c in order && IsDangling(StateOf(log, c))
  {
    if |order| > 0 {
      assert order == order[..|order| - 1] + [order[|order| - 1]];
      DanglingInMembers(log, order[..|order| - 1]);
    }
  }

  /** The dangling calls, by the state the fold leaves them in. */
  lemma DanglingByState(log: seq<Event>)
    ensures forall c :: c in Dangling(log) <==> c != "" && IsDangling(StateOf(log, c))
  {
    DanglingInMembers(log, CallOrder(log));
    OrderNames(log);
    forall c | c != "" && IsDangling(StateOf(log, c)) ensures c in CallOrder(log) {
      StateNeedsMention(log, c);
    }
  }

  lemma {:induction false} BarrierOnLog(log: seq<Event>, call: string)
    requires IsDangling(StateOf(log, call))
    ensures WasDispatched(log, call)
  {
    var before, e := log[..|log| - 1], log[|log| - 1];
    if e.call == call && (e.payload.ToolDispatched? || e.payload.ToolRunning? || e.payload.ToolResumeStarted?) {
      assert log[|log| - 1] == e;
    } else {
      BarrierOnLog(before, call);
      var i :| 0 <= i < |before| && before[i].call == call
        && (before[i].payload.ToolDispatched? || before[i].payload.ToolRunning? || before[i].payload.ToolResumeStarted?);
      assert log[i] == before[i];
    }
  }

  /** Recovery only settles calls whose barrier is durable, so it always reports their outcome as
      unknown; its other code is never used. */
  lemma RecoveredOutcomeIsUnknown(log: seq<Event>, call: string)
    requires call in Dangling(log)
    ensures OutcomeCode(log, call) == "TOOL_OUTCOME_UNKNOWN"
  {
    DanglingByState(log);
    BarrierOnLog(log, call);
  }

  lemma {:induction false} ResultMembers(log: seq<Event>, calls: seq<string>, sid: string)
    ensures forall e :: e in ResultEvents(log, calls, sid) <==> e.call in calls && e == UnknownResult(log, e.call, sid)
  {
    if |calls| > 0 {
      assert calls == calls[..|calls| - 1] + [calls[|calls| - 1]];
      ResultMembers(log, calls[..|calls| - 1], sid);
    }
  }

  function KeysOf(open: seq<Event>): set<StepKey> { set s | s in open :: s.Key() }

  lemma {:induction false} StepEndMembers(open: seq<Event>, deferred: set<StepKey>, sid: string)
    ensures forall e :: e in StepEndEvents(open, deferred, sid)
              <==> e.Key() in KeysOf(open) && e.Key() !in deferred && e == StepEndEvent(e.Key(), sid)
  {
    if |open| > 0 {
      var init, last := open[..|open| - 1], open[|open| - 1];
      assert open == init + [last];
      assert KeysOf(open) == KeysOf(init) + {last.Key()};
      StepEndMembers(init, deferred, sid);
    }
  }

  lemma {:induction false} DraftMembers(log: seq<Event>, keys: seq<StepKey>, sid: string)
    ensures forall e :: e in DraftEvents(log, keys, sid)
              <==> e.Key() in keys && NeedsDraft(log, e.Key()) && e == DraftEvent(log, e.Key(), sid)
  {
    if |keys| > 0 {
      var init, last := keys[..|keys| - 1], keys[|keys| - 1];
      assert keys == init + [last];
      DraftMembers(log, init, sid);
    }
  }

  lemma {:induction false} OpenStepsNamed(log: seq<Event>)
    ensures forall s :: s in OpenSteps(log) ==> s.step != "" && s.turn != ""
  {
    if |log| > 0 {
      var e := log[|log| - 1];
      OpenStepsNamed(log[..|log| - 1]);
      DropMembers(OpenSteps(log[..|log| - 1]), e.Key());
    }
  }

  lemma {:induction false} DropMembers(open: seq<Event>, key: StepKey)
    ensures forall s :: s in DropKey(open, key) <==> s in open && s.Key() != key
  {
    if |open| > 0 {
      assert open == open[..|open| - 1] + [open[|open| - 1]];
      DropMembers(open[..|open| - 1], key);
    }
  }

  /** The only kinds of events recovery appends. */
  predicate RecoveryKind(e: Event) {
    || (e.payload.AssistantMessage? && e.payload.calls == [])
    || (e.payload.ToolResult? && e.call != "")
    || (e.payload.StepEnd? && e.step != "" && e.turn != "")
    || e.payload.TurnEnd?
  }

  /** What one event of the recovery batch can be. */
  lemma BatchMember(log: seq<Event>, sid: string, e: Event)
    requires e in RecoveryEvents(log, sid)
    ensures RecoveryKind(e) && e.id != NoId
    ensures e.payload.ToolResult? ==> e.call in Dangling(log) && e == UnknownResult(log, e.call, sid)
    ensures e.payload.StepEnd? ==> e.Key() in KeysOf(OpenSteps(log)) && e.Key() !in DeferredSteps(log)
    ensures e.payload.TurnEnd? ==> e in TurnEndEvents(log, sid)
  {
    if e in DraftEvents(log, DraftKeys(log), sid) {
      DraftMembers(log, DraftKeys(log), sid);
    } else if e in ResultEvents(log, Dangling(log), sid) {
      ResultMembers(log, Dangling(log), sid);
      DanglingByState(log);
    } else if e in StepEndEvents(OpenSteps(log), DeferredSteps(log), sid) {
      StepEndMembers(OpenSteps(log), DeferredSteps(log), sid);
      OpenStepsNamed(log);
    }
  }

  lemma ResultInBatch(log: seq<Event>, sid: string, call: string)
    requires call in Dangling(log)
    ensures UnknownResult(log, call, sid) in RecoveryEvents(log, sid)
  {
    ResultMembers(log, Dangling(log), sid);
    assert UnknownResult(log, call, sid) in ResultEvents(log, Dangling(log), sid);
  }

  lemma StepEndInBatch(log: seq<Event>, sid: string, key: StepKey)
    requires key in KeysOf(OpenSteps(log)) && key !in DeferredSteps(log)
    ensures StepEndEvent(key, sid) in RecoveryEvents(log, sid)
  {
    StepEndMembers(OpenSteps(log), DeferredSteps(log), sid);
    assert StepEndEvent(key, sid).Key() == key;
    assert StepEndEvent(key, sid) in StepEndEvents(OpenSteps(log), DeferredSteps(log), sid);
  }

  lemma DraftInBatch(log: seq<Event>, sid: string, key: StepKey)
    requires key in DraftKeys(log) && NeedsDraft(log, key)
    ensures DraftEvent(log, key, sid) in RecoveryEvents(log, sid)
  {
    DraftMembers(log, DraftKeys(log), sid);
    assert DraftEvent(log, key, sid).Key() == key;
    assert DraftEvent(log, key, sid) in DraftEvents(log, DraftKeys(log), sid);
  }

  // ---------------------------------------------------------------- the appended tail

  /** Every event a fenced append adds is a batch event whose id was new. */
  lemma {:induction false} TailOrigin(log: seq<Event>, sid: string, batch: seq<Event>, i: nat) returns (b: Event)
    requires |log| <= i < |AppendedNew(log, sid, batch)|
    ensures b in batch && IsNew(log, b) && AppendedNew(log, sid, batch)[i] == Stored(b, sid, i + 1)
    decreases |batch|
  {
    var init, last := batch[..|batch| - 1], batch[|batch| - 1];
    if i < |AppendedNew(log, sid, init)| {
      b := TailOrigin(log, sid, init, i);
    } else {
      b := last;
    }
  }

  /** Every batch event whose id was new is added. */
  lemma {:induction false} TailHolds(log: seq<Event>, sid: string, batch: seq<Event>, b: Event) returns (i: nat)
    requires b in batch && IsNew(log, b)
    ensures |log| <= i < |AppendedNew(log, sid, batch)| && AppendedNew(log, sid, batch)[i] == Stored(b, sid, i + 1)
    decreases |batch|
  {
    var init, last := batch[..|batch| - 1], batch[|batch| - 1];
    assert batch == init + [last];
    if b in init {
      i := TailHolds(log, sid, init, b);
    } else {
      i := |AppendedNew(log, sid, init)|;
      TailStarts(log, sid, init);
    }
  }

  lemma {:induction false} TailStarts(log: seq<Event>, sid: string, batch: seq<Event>)
    ensures log <= AppendedNew(log, sid, batch)
  {
    if |batch| > 0 {
      TailStarts(log, sid, batch[..|batch| - 1]);
    }
  }

  ghost predicate RecoveryTail(log: seq<Event>, after: seq<Event>) {
    log <= after && forall i :: |log| <= i < |after| ==> RecoveryKind(after[i])
  }

  predicate TailHasResult(log: seq<Event>, after: seq<Event>, call: string) {
    exists i :: |log| <= i < |after| && after[i].payload.ToolResult? && after[i].call == call
  }

  lemma TailInit(log: seq<Event>, after: seq<Event>) returns (init: seq<Event>)
    requires RecoveryTail(log, after) && |after| > |log|
    ensures init == after[..|after| - 1] && RecoveryTail(log, init)
    ensures forall i :: |log| <= i < |init| ==> init[i] == after[i]
  {
    init := after[..|after| - 1];
    assert log <= init;
  }

  /** A recovery tail moves a call only by giving it a result. */
  lemma {:induction false} StateAfter(log: seq<Event>, after: seq<Event>, call: string)
    requires RecoveryTail(log, after) && call != ""
    ensures StateOf(after, call) == if TailHasResult(log, after, call) then CallResult else StateOf(log, call)
    ensures ScopeOf(after, call) == if TailHasResult(log, after, call)
                                    then Scope(false, ScopeOf(log, call).location, true) else ScopeOf(log, call)
    decreases |after|
  {
    if |after| > |log| {
      var init := TailInit(log, after);
      var e := after[|after| - 1];
      StateAfter(log, init, call);
      if TailHasResult(log, init, call) {
        var i :| |log| <= i < |init| && init[i].payload.ToolResult? && init[i].call == call;
        assert after[i] == init[i];
      }
      if TailHasResult(log, after, call) && !(e.payload.ToolResult? && e.call == call) {
        var i :| |log| <= i < |after| && after[i].payload.ToolResult? && after[i].call == call;
        assert init[i] == after[i];
      }
    } else {
      assert after == log;
    }
  }

  function TailClosed(log: seq<Event>, after: seq<Event>): set<StepKey> {
    set i | |log| <= i < |after| && after[i].payload.StepEnd? :: after[i].Key()
  }

  /** The open steps whose key is in none of `closed`. */
  function Excluding(open: seq<Event>, closed: set<StepKey>): seq<Event> {
    if |open| == 0 then []
    else
      var e := open[|open| - 1];
      Excluding(open[..|open| - 1], closed) + (if e.Key() in closed then [] else [e])
  }

  lemma {:induction false} ExcludingMembers(open: seq<Event>, closed: set<StepKey>)
    ensures forall s :: s in Excluding(open, closed) <==> s in open && s.Key() !in closed
  {
    if |open| > 0 {
      assert open == open[..|open| - 1] + [open[|open| - 1]];
      ExcludingMembers(open[..|open| - 1], closed);
    }
  }

  lemma {:induction false} ExcludingDrop(open: seq<Event>, closed: set<StepKey>, key: StepKey)
    ensures DropKey(Excluding(open, closed), key) == Excluding(open, closed + {key})
  {
    if |open| > 0 {
      var init, last := open[..|open| - 1], open[|open| - 1];
      ExcludingDrop(init, closed, key);
      if last.Key() !in closed {
        DropSnoc(Excluding(init, closed), last, key);
      } else {
        assert Excluding(init, closed) + [] == Excluding(init, closed);
      }
    }
  }

  lemma DropSnoc(open: seq<Event>, last: Event, key: StepKey)
    ensures DropKey(open + [last], key) == DropKey(open, key) + (if last.Key() == key then [] else [last])
  {
    assert (open + [last])[..|open|] == open;
  }

  lemma {:induction false} ExcludingNone(open: seq<Event>)
    ensures Excluding(open, {}) == open
  {
    if |open| > 0 {
      ExcludingNone(open[..|open| - 1]);
      assert open == open[..|open| - 1] + [open[|open| - 1]];
    }
  }

  function Closes(e: Event): set<StepKey> { if e.payload.StepEnd? then {e.Key()} else {} }

  lemma TailClosedSnoc(log: seq<Event>, init: seq<Event>, after: seq<Event>)
    requires |init| >= |log| && |after| == |init| + 1 && init == after[..|init|]
    ensures TailClosed(log, after) == TailClosed(log, init) + Closes(after[|init|])
  {
    assert forall i :: 0 <= i < |init| ==> init[i] == after[i];
  }

  /** One recovery event closes at most its own step. */
  lemma OpenStepExcludes(open: seq<Event>, closed: set<StepKey>, e: Event)
    requires RecoveryKind(e)
    ensures OpenStep(Excluding(open, closed), e) == Excluding(open, closed + Closes(e))
  {
    if e.payload.StepEnd? {
      ExcludingDrop(open, closed, e.Key());
    } else {
      assert closed + {} == closed;
    }
  }

  lemma {:induction false} OpenAfter(log: seq<Event>, after: seq<Event>)
    requires RecoveryTail(log, after)
    ensures OpenSteps(after) == Excluding(OpenSteps(log), TailClosed(log, after))
    decreases |after|
  {
    if |after| > |log| {
      var init := TailInit(log, after);
      OpenAfter(log, init);
      TailClosedSnoc(log, init, after);
      OpenStepExcludes(OpenSteps(log), TailClosed(log, init), after[|after| - 1]);
    } else {
      assert after == log && TailClosed(log, after) == {};
      ExcludingNone(OpenSteps(log));
    }
  }

  lemma {:induction false} TurnsAfter(log: seq<Event>, after: seq<Event>)
    requires RecoveryTail(log, after) && forall i :: |log| <= i < |after| ==> !after[i].payload.TurnEnd?
    ensures TurnsOf(after) == TurnsOf(log)
    decreases |after|
  {
    if |after| > |log| {
      var init := TailInit(log, after);
      TurnsAfter(log, init);
    } else {
      assert after == log;
    }
  }

  lemma {:induction false} DraftAfter(log: seq<Event>, after: seq<Event>, key: StepKey)
    requires RecoveryTail(log, after)
    ensures DraftKeys(after) == DraftKeys(log) && DraftOf(after, key) == DraftOf(log, key)
    decreases |after|
  {
    if |after| > |log| {
      var init := TailInit(log, after);
      DraftAfter(log, init, key);
    } else {
      assert after == log;
    }
  }

  lemma RecoveredTail(log: seq<Event>, sid: string)
    ensures RecoveryTail(log, Recovered(log, sid))
  {
    var batch := RecoveryEvents(log, sid);
    TailStarts(log, sid, batch);
    forall i: nat | |log| <= i < |Recovered(log, sid)| ensures RecoveryKind(Recovered(log, sid)[i]) {
      var b := TailOrigin(log, sid, batch, i);
      BatchMember(log, sid, b);
    }
  }

  // ---------------------------------------------------------------- settling

  /** A call gets a result from recovery exactly when it dangles and its recovery id is unused. */
  lemma TailResultExactly(log: seq<Event>, sid: string, call: string)
    ensures TailHasResult(log, Recovered(log, sid), call) <==> call in Dangling(log) && RecoverUnknown(call) !in Ids(log)
  {
    var after := Recovered(log, sid);
    if TailHasResult(log, after, call) {
      var i: nat :| |log| <= i < |after| && after[i].payload.ToolResult? && after[i].call == call;
      var b := TailOrigin(log, sid, RecoveryEvents(log, sid), i);
      BatchMember(log, sid, b);
    }
    if call in Dangling(log) && RecoverUnknown(call) !in Ids(log) {
      ResultInBatch(log, sid, call);
      var i := TailHolds(log, sid, RecoveryEvents(log, sid), UnknownResult(log, call, sid));
    }
  }

  lemma DanglingAfter(log: seq<Event>, sid: string, call: string)
    ensures call in Dangling(Recovered(log, sid)) <==> call in Dangling(log) && RecoverUnknown(call) in Ids(log)
  {
    DanglingByState(log);
    DanglingByState(Recovered(log, sid));
    if call != "" {
      RecoveredTail(log, sid);
      TailResultExactly(log, sid, call);
      StateAfter(log, Recovered(log, sid), call);
    }
  }

  /** Recovery settles every unknown outcome exactly when no dangling call's recovery id was
      already used: a used id makes the idempotent append skip the result. */
  lemma RecoverySettlesExactly(log: seq<Event>, sid: string)
    ensures Dangling(Recovered(log, sid)) == [] <==> forall c :: c in Dangling(log) ==> RecoverUnknown(c) !in Ids(log)
  {
    var left := Dangling(Recovered(log, sid));
    forall c ensures c in left <==> c in Dangling(log) && RecoverUnknown(c) in Ids(log) {
      DanglingAfter(log, sid, c);
    }
    NoMembers(left);
  }

  /** The step keys recovery closes: open, outside the deferred ones, and never closed by recovery
      before. A step started again after recovery closed it keeps the same key, so its second end
      carries an id that is already on the log and is skipped. */
  function ClosingKeys(log: seq<Event>): set<StepKey> {
    set key | key in KeysOf(OpenSteps(log)) && key !in DeferredSteps(log) && RecoverStepEnd(key) !in Ids(log)
  }

  /** The step ends recovery adds are those of the closing keys. */
  lemma ClosedTailExactly(log: seq<Event>, sid: string)
    ensures TailClosed(log, Recovered(log, sid)) == ClosingKeys(log)
  {
    var after := Recovered(log, sid);
    forall key | key in TailClosed(log, after) ensures key in ClosingKeys(log) {
      var i: nat :| |log| <= i < |after| && after[i].payload.StepEnd? && after[i].Key() == key;
      var b := TailOrigin(log, sid, RecoveryEvents(log, sid), i);
      StepEndOfBatch(log, sid, b);
    }
    forall key | key in ClosingKeys(log) ensures key in TailClosed(log, after) {
      StepEndInBatch(log, sid, key);
      var i := TailHolds(log, sid, RecoveryEvents(log, sid), StepEndEvent(key, sid));
      assert after[i].Key() == key;
    }
  }

  lemma StepEndOfBatch(log: seq<Event>, sid: string, b: Event)
    requires b in RecoveryEvents(log, sid) && b.payload.StepEnd?
    ensures b.Key() in KeysOf(OpenSteps(log)) && b.Key() !in DeferredSteps(log) && b == StepEndEvent(b.Key(), sid)
  {
    BatchMember(log, sid, b);
    StepEndMembers(OpenSteps(log), DeferredSteps(log), sid);
    DraftMembers(log, DraftKeys(log), sid);
    ResultMembers(log, Dangling(log), sid);
  }

  /** What recovery does to the open steps of any log: the closing keys are gone and the others keep
      their order. A step stays open exactly when it is deferred or its recovery id was used. */
  lemma StepsClosedExactly(log: seq<Event>, sid: string)
    ensures OpenSteps(Recovered(log, sid)) == Excluding(OpenSteps(log), ClosingKeys(log))
    ensures forall s :: s in OpenSteps(Recovered(log, sid)) <==>
              s in OpenSteps(log) && (s.Key() in DeferredSteps(log) || RecoverStepEnd(s.Key()) in Ids(log))
  {
    RecoveredTail(log, sid);
    OpenAfter(log, Recovered(log, sid));
    ClosedTailExactly(log, sid);
    ExcludingMembers(OpenSteps(log), ClosingKeys(log));
  }

  const STEP := StepKey("r", "t", "s")

  /** A step that recovery closed, started again under its own key. */
  const REOPENED := [
    Event(1, Emitted("a"), "", "r", "t", "s", "", [], StepStart),
    Event(2, RecoverStepEnd(STEP), "", "r", "t", "s", "", [], StepEnd),
    Event(3, Emitted("b"), "", "r", "t", "s", "", [], StepStart)]

  lemma OpenSnoc(log: seq<Event>, e: Event)
    ensures OpenSteps(log + [e]) == OpenStep(OpenSteps(log), e)
  {
    assert (log + [e])[..|log|] == log;
  }

  lemma ReopenedSteps()
    ensures OpenSteps(REOPENED) == [REOPENED[2]]
  {
    var a, b, c := REOPENED[0], REOPENED[1], REOPENED[2];
    assert REOPENED == [] + [a] + [b] + [c];
    OpenSnoc([], a);
    OpenSnoc([] + [a], b);
    OpenSnoc([] + [a] + [b], c);
    assert DropKey([], STEP) == [];
    assert DropKey([a], STEP) == [];
  }

  lemma ReopenedIds()
    ensures DeferredSteps(REOPENED) == {} && RecoverStepEnd(STEP) in Ids(REOPENED)
  {
    assert REOPENED[1] in REOPENED;
    assert Calls(REOPENED) == {};
  }

  lemma ReopenedKeys()
    ensures KeysOf([REOPENED[2]]) == {STEP}
  {
    assert REOPENED[2] in [REOPENED[2]] && REOPENED[2].Key() == STEP;
  }

  /** Recovery then leaves a step open that nothing waits in. */
  lemma ReopenedStepStaysOpen(sid: string)
    ensures KeysOf(OpenSteps(REOPENED)) == {STEP} && DeferredSteps(REOPENED) == {}
    ensures OpenSteps(Recovered(REOPENED, sid)) == OpenSteps(REOPENED)
  {
    ReopenedSteps();
    ReopenedIds();
    ReopenedKeys();
    NothingToClose(REOPENED, sid);
  }

  lemma NothingToClose(log: seq<Event>, sid: string)
    requires ClosingKeys(log) == {}
    ensures OpenSteps(Recovered(log, sid)) == OpenSteps(log)
  {
    StepsClosedExactly(log, sid);
    ExcludingNone(OpenSteps(log));
  }

  /** The batch before its turn end. */
  function SettlingEvents(log: seq<Event>, sid: string): seq<Event> {
    DraftEvents(log, DraftKeys(log), sid)
    + ResultEvents(log, Dangling(log), sid)
    + StepEndEvents(OpenSteps(log), DeferredSteps(log), sid)
  }

  lemma SettlingMember(log: seq<Event>, sid: string, e: Event)
    requires e in SettlingEvents(log, sid)
    ensures e in RecoveryEvents(log, sid) && !e.payload.TurnEnd?
  {
    if e in DraftEvents(log, DraftKeys(log), sid) {
      DraftMembers(log, DraftKeys(log), sid);
    } else if e in ResultEvents(log, Dangling(log), sid) {
      ResultMembers(log, Dangling(log), sid);
    } else {
      StepEndMembers(OpenSteps(log), DeferredSteps(log), sid);
    }
  }

  lemma SettlingKeepsTurn(log: seq<Event>, sid: string)
    ensures TurnsOf(AppendedNew(log, sid, SettlingEvents(log, sid))) == TurnsOf(log)
  {
    var before := AppendedNew(log, sid, SettlingEvents(log, sid));
    TailStarts(log, sid, SettlingEvents(log, sid));
    forall i: nat | |log| <= i < |before| ensures RecoveryKind(before[i]) && !before[i].payload.TurnEnd? {
      var b := TailOrigin(log, sid, SettlingEvents(log, sid), i);
      SettlingMember(log, sid, b);
      BatchMember(log, sid, b);
    }
    TurnsAfter(log, before);
  }

  lemma AppendOneNew(log: seq<Event>, sid: string, batch: seq<Event>, e: Event)
    requires IsNew(log, e)
    ensures AppendedNew(log, sid, batch + [e])
         == AppendedNew(log, sid, batch) + [Stored(e, sid, |AppendedNew(log, sid, batch)| + 1)]
  {
    assert (batch + [e])[..|batch|] == batch;
  }

  lemma TurnsSnoc(log: seq<Event>, e: Event)
    ensures TurnsOf(log + [e]) == NextTurns(TurnsOf(log), e)
  {
    assert (log + [e])[..|log|] == log;
  }

  /** Whether recovery's turn end reaches the log. */
  predicate EndsTurn(log: seq<Event>) { ClosesTurn(log) && RecoverTurnEnd(TurnsOf(log).turn) !in Ids(log) }

  /** The turn counter after recovery of any log: decremented once when the turn was closed, and
      untouched otherwise. */
  lemma TurnClosedExactly(log: seq<Event>, sid: string)
    ensures EndsTurn(log) ==> TurnsOf(Recovered(log, sid)) == NextTurns(TurnsOf(log), TurnEndEvents(log, sid)[0])
    ensures !EndsTurn(log) ==> TurnsOf(Recovered(log, sid)) == TurnsOf(log)
  {
    var settling := SettlingEvents(log, sid);
    var before := AppendedNew(log, sid, settling);
    SettlingKeepsTurn(log, sid);
    assert RecoveryEvents(log, sid) == settling + TurnEndEvents(log, sid);
    if ClosesTurn(log) {
      var e := TurnEndEvents(log, sid)[0];
      assert TurnEndEvents(log, sid) == [e] && (settling + [e])[..|settling|] == settling;
      if EndsTurn(log) {
        AppendOneNew(log, sid, settling, e);
        TurnsSnoc(before, Stored(e, sid, |before| + 1));
      }
    } else {
      assert settling + [] == settling;
    }
  }

  lemma TurnCounter(log: seq<Event>, sid: string)
    ensures var t := TurnsOf(Recovered(log, sid));
            && t.open == TurnsOf(log).open - (if EndsTurn(log) then 1 else 0)
            && (t.open > 0 ==> t == TurnsOf(log).(open := t.open))
  {
    TurnClosedExactly(log, sid);
  }

  lemma DanglingAll(log: seq<Event>, sid: string)
    ensures forall c :: c in Dangling(Recovered(log, sid)) <==> c in Dangling(log) && RecoverUnknown(c) in Ids(log)
  {
    forall c ensures c in Dangling(Recovered(log, sid)) <==> c in Dangling(log) && RecoverUnknown(c) in Ids(log) {
      DanglingAfter(log, sid, c);
    }
  }

  /** What recovery leaves unsettled, for every log: a call dangles, a step is open or the turn
      counter is as before exactly when the item waits or its recovery id was used before. */
  lemma RecoverySettles(log: seq<Event>, sid: string)
    ensures forall c :: c in Dangling(Recovered(log, sid)) <==> c in Dangling(log) && RecoverUnknown(c) in Ids(log)
    ensures forall s :: s in OpenSteps(Recovered(log, sid)) <==>
              s in OpenSteps(log) && (s.Key() in DeferredSteps(log) || RecoverStepEnd(s.Key()) in Ids(log))
    ensures var t := TurnsOf(Recovered(log, sid));
            && t.open == TurnsOf(log).open - (if EndsTurn(log) then 1 else 0)
            && (t.open > 0 ==> t == TurnsOf(log).(open := t.open))
  {
    DanglingAll(log, sid);
    StepsClosedExactly(log, sid);
    TurnCounter(log, sid);
  }

  // ---------------------------------------------------------------- idempotence

  /** A recovery that finds every id of its batch on the log changes nothing, and only such a one. */
  lemma UnchangedExactly(log: seq<Event>, sid: string)
    ensures Recovered(log, sid) == log <==> forall b :: b in RecoveryEvents(log, sid) ==> b.id in Ids(log)
  {
    var batch := RecoveryEvents(log, sid);
    TailStarts(log, sid, batch);
    if Recovered(log, sid) == log {
      forall b | b in batch ensures b.id in Ids(log) {
        BatchMember(log, sid, b);
        if IsNew(log, b) { var i := TailHolds(log, sid, batch, b); }
      }
    } else {
      var b := TailOrigin(log, sid, batch, |log|);
      BatchMember(log, sid, b);
    }
  }

  /** Recovery gives the call a result. */
  predicate Settled(log: seq<Event>, call: string) { call in Dangling(log) && RecoverUnknown(call) !in Ids(log) }

  /** The call still keeps its step open once recovery is done, said of the log before it. A settled
      call keeps its step only if the step has no end, old or added. */
  predicate KeptAfter(log: seq<Event>, call: string) {
    var s := ScopeOf(log, call);
    || (s.pending && !Settled(log, call))
    || ((s.result || Settled(log, call)) && s.location.Some? && LocationKey(s) !in ClosedSteps(log) + ClosingKeys(log))
  }

  function KeptSteps(log: seq<Event>): set<StepKey> {
    set call | call in Calls(log) && KeptAfter(log, call) :: LocationKey(ScopeOf(log, call))
  }

  function KeptTurns(log: seq<Event>): set<string> {
    set call | call in Calls(log) && KeptAfter(log, call) :: LocationKey(ScopeOf(log, call)).turn
  }

  /** Every scope that recovery spares because a call waits in it is still waited in afterwards. */
  ghost predicate WaitsSurvive(log: seq<Event>) {
    && (forall key :: key in KeysOf(OpenSteps(log)) * DeferredSteps(log) && RecoverStepEnd(key) !in Ids(log)
                      ==> key in KeptSteps(log))
    && (TurnsOf(log).open > 0 && TurnsOf(log).turn in DeferredTurns(log) && RecoverTurnEnd(TurnsOf(log).turn) !in Ids(log)
        ==> TurnsOf(log).turn in KeptTurns(log))
  }

  lemma ClosedAfter(log: seq<Event>, after: seq<Event>)
    requires RecoveryTail(log, after)
    ensures ClosedSteps(after) == ClosedSteps(log) + TailClosed(log, after)
  {
    forall key ensures key in ClosedSteps(after) <==> key in ClosedSteps(log) + TailClosed(log, after) {
      if key in ClosedSteps(after) {
        var e :| e in after && e.payload.StepEnd? && e.step != "" && e.turn != "" && e.Key() == key;
        var i :| 0 <= i < |after| && after[i] == e;
        if i < |log| { assert log[i] == e; }
      }
      if key in ClosedSteps(log) {
        var e :| e in log && e.payload.StepEnd? && e.step != "" && e.turn != "" && e.Key() == key;
        var i :| 0 <= i < |log| && log[i] == e;
        assert after[i] == e;
      }
      if key in TailClosed(log, after) {
        var i :| |log| <= i < |after| && after[i].payload.StepEnd? && after[i].Key() == key;
        assert after[i] in after;
      }
    }
  }

  lemma CallsGrow(log: seq<Event>, after: seq<Event>, call: string)
    requires log <= after && call in Calls(log)
    ensures call in Calls(after)
  {
    var e :| e in log && e.call == call;
    var i :| 0 <= i < |log| && log[i] == e;
    assert after[i] == e;
  }

  /** Recovery names no call that was not on the log. */
  lemma SameCalls(log: seq<Event>, sid: string)
    ensures Calls(Recovered(log, sid)) == Calls(log)
  {
    var after := Recovered(log, sid);
    RecoveredTail(log, sid);
    forall call | call in Calls(log) ensures call in Calls(after) { CallsGrow(log, after, call); }
    forall call | call in Calls(after) ensures call in Calls(log) {
      var e :| e in after && e.call == call;
      var i: nat :| i < |after| && after[i] == e;
      if i < |log| {
        assert log[i] == e;
      } else {
        var b := TailOrigin(log, sid, RecoveryEvents(log, sid), i);
        NamedInBatch(log, sid, b);
        DanglingByState(log);
        BarrierOnLog(log, call);
      }
    }
  }

  lemma NamedInBatch(log: seq<Event>, sid: string, b: Event)
    requires b in RecoveryEvents(log, sid) && b.call != ""
    ensures b.call in Dangling(log)
  {
    DraftMembers(log, DraftKeys(log), sid);
    ResultMembers(log, Dangling(log), sid);
    StepEndMembers(OpenSteps(log), DeferredSteps(log), sid);
  }

  lemma KeptExactly(log: seq<Event>, sid: string, call: string)
    requires call != ""
    ensures KeepsOpen(Recovered(log, sid), call) <==> KeptAfter(log, call)
    ensures LocationKey(ScopeOf(Recovered(log, sid), call)) == LocationKey(ScopeOf(log, call))
  {
    var after := Recovered(log, sid);
    RecoveredTail(log, sid);
    StateAfter(log, after, call);
    ClosedAfter(log, after);
    ClosedTailExactly(log, sid);
    TailResultExactly(log, sid, call);
  }

  /** The deferred scopes after recovery, from the log before it. */
  lemma DeferredAfter(log: seq<Event>, sid: string)
    ensures DeferredSteps(Recovered(log, sid)) == KeptSteps(log)
    ensures DeferredTurns(Recovered(log, sid)) == KeptTurns(log)
  {
    var after := Recovered(log, sid);
    SameCalls(log, sid);
    forall call | call in Calls(log)
      ensures KeepsOpen(after, call) <==> KeptAfter(log, call)
      ensures LocationKey(ScopeOf(after, call)) == LocationKey(ScopeOf(log, call))
    {
      KeptExactly(log, sid, call);
    }
    SameImage(log, after);
  }

  lemma SameImage(log: seq<Event>, after: seq<Event>)
    requires Calls(after) == Calls(log)
    requires forall call :: call in Calls(log) ==> (KeepsOpen(after, call) <==> KeptAfter(log, call))
    requires forall call :: call in Calls(log) ==> LocationKey(ScopeOf(after, call)) == LocationKey(ScopeOf(log, call))
    ensures DeferredSteps(after) == KeptSteps(log) && DeferredTurns(after) == KeptTurns(log)
  {
  }

  lemma IdAfter(log: seq<Event>, sid: string, id: EventId)
    requires id != NoId
    ensures id in Ids(Recovered(log, sid)) <==> id in Ids(log) || exists b :: b in RecoveryEvents(log, sid) && b.id == id
  {
    var after, batch := Recovered(log, sid), RecoveryEvents(log, sid);
    TailStarts(log, sid, batch);
    if id in Ids(log) {
      var e :| e in log && e.id == id;
      var i :| 0 <= i < |log| && log[i] == e;
      assert after[i] in after;
    } else if b :| b in batch && b.id == id {
      var i := TailHolds(log, sid, batch, b);
      assert after[i] in after && after[i].id == id;
    }
    if id in Ids(after) { IdOrigin(log, sid, id); }
  }

  lemma IdOrigin(log: seq<Event>, sid: string, id: EventId)
    requires id in Ids(Recovered(log, sid))
    ensures id in Ids(log) || exists b :: b in RecoveryEvents(log, sid) && b.id == id
  {
    var after := Recovered(log, sid);
    TailStarts(log, sid, RecoveryEvents(log, sid));
    var e :| e in after && e.id == id;
    var i: nat :| i < |after| && after[i] == e;
    if i < |log| {
      assert log[i] == e;
    } else {
      var b := TailOrigin(log, sid, RecoveryEvents(log, sid), i);
    }
  }

  /** A step end of the second recovery is new exactly when its key was spared and lost its wait. */
  lemma StepEndAgain(log: seq<Event>, sid: string, key: StepKey)
    requires key in KeysOf(OpenSteps(Recovered(log, sid))) && key !in DeferredSteps(Recovered(log, sid))
    ensures key in KeysOf(OpenSteps(log)) && key !in KeptSteps(log)
    ensures RecoverStepEnd(key) !in Ids(Recovered(log, sid)) <==> key in DeferredSteps(log) && RecoverStepEnd(key) !in Ids(log)
  {
    StepsClosedExactly(log, sid);
    DeferredAfter(log, sid);
    IdAfter(log, sid, RecoverStepEnd(key));
    if b :| b in RecoveryEvents(log, sid) && b.id == RecoverStepEnd(key) {
      IdOfStepEnd(log, sid, b);
      StepEndOfBatch(log, sid, b);
    }
  }

  lemma IdOfStepEnd(log: seq<Event>, sid: string, b: Event)
    requires b in RecoveryEvents(log, sid)
    ensures b.payload.StepEnd? <==> b.id.RecoverStepEnd?
    ensures b.payload.TurnEnd? <==> b.id.RecoverTurnEnd?
  {
    DraftMembers(log, DraftKeys(log), sid);
    ResultMembers(log, Dangling(log), sid);
    StepEndMembers(OpenSteps(log), DeferredSteps(log), sid);
  }

  /** The second turn end is new exactly when the turn was spared and lost its wait. */
  lemma TurnEndAgain(log: seq<Event>, sid: string)
    requires ClosesTurn(Recovered(log, sid))
    ensures TurnsOf(Recovered(log, sid)).turn == TurnsOf(log).turn && TurnsOf(log).open > 0
    ensures EndsTurn(Recovered(log, sid)) <==>
              TurnsOf(log).turn in DeferredTurns(log) && TurnsOf(log).turn !in KeptTurns(log) && RecoverTurnEnd(TurnsOf(log).turn) !in Ids(log)
  {
    var turn := TurnsOf(log).turn;
    RecoverySettles(log, sid);
    DeferredAfter(log, sid);
    IdAfter(log, sid, RecoverTurnEnd(turn));
    if ClosesTurn(log) {
      assert TurnEndEvents(log, sid)[0] in RecoveryEvents(log, sid);
    } else if b :| b in RecoveryEvents(log, sid) && b.id == RecoverTurnEnd(turn) {
      IdOfStepEnd(log, sid, b);
      BatchMember(log, sid, b);
    }
  }

  lemma DraftAgain(log: seq<Event>, sid: string, key: StepKey)
    requires key in DraftKeys(log) && NeedsDraft(Recovered(log, sid), key)
    ensures RecoverDraft(key) in Ids(log)
  {
    var after := Recovered(log, sid);
    RecoveredTail(log, sid);
    DraftAfter(log, after, key);
    if DraftCompleted(log, key) {
      CompletedGrows(log, after, key);
    } else if RecoverDraft(key) !in Ids(log) {
      DraftCompletes(log, sid, key);
    }
  }

  lemma CompletedGrows(log: seq<Event>, after: seq<Event>, key: StepKey)
    requires log <= after && DraftCompleted(log, key)
    ensures DraftCompleted(after, key)
  {
    var i :| 0 <= i < |log| && log[i].payload.AssistantMessage? && log[i].Key() == key;
    assert after[i] == log[i];
  }

  lemma DraftCompletes(log: seq<Event>, sid: string, key: StepKey)
    requires key in DraftKeys(log) && NeedsDraft(log, key) && RecoverDraft(key) !in Ids(log)
    ensures DraftCompleted(Recovered(log, sid), key)
  {
    DraftInBatch(log, sid, key);
    var i := TailHolds(log, sid, RecoveryEvents(log, sid), DraftEvent(log, key, sid));
    assert Recovered(log, sid)[i].payload.AssistantMessage? && Recovered(log, sid)[i].Key() == key;
  }

  /** Drafts and results of a second recovery are never new. */
  lemma OutcomesAgain(log: seq<Event>, sid: string, b: Event)
    requires b in RecoveryEvents(Recovered(log, sid), sid) && !b.payload.StepEnd? && !b.payload.TurnEnd?
    ensures b.id in Ids(Recovered(log, sid))
  {
    var after := Recovered(log, sid);
    RecoveredTail(log, sid);
    BatchMember(after, sid, b);
    IdAfter(log, sid, b.id);
    if b.payload.ToolResult? {
      DanglingAfter(log, sid, b.call);
    } else {
      DraftMembers(after, DraftKeys(after), sid);
      ResultMembers(after, Dangling(after), sid);
      StepEndMembers(OpenSteps(after), DeferredSteps(after), sid);
      DraftAfter(log, after, b.Key());
      DraftAgain(log, sid, b.Key());
    }
  }

  lemma StepEndsAgain(log: seq<Event>, sid: string, b: Event)
    requires WaitsSurvive(log) && b in RecoveryEvents(Recovered(log, sid), sid)
    ensures b.id in Ids(Recovered(log, sid))
  {
    var after := Recovered(log, sid);
    if b.payload.StepEnd? {
      StepEndOfBatch(after, sid, b);
      StepEndAgain(log, sid, b.Key());
    } else if b.payload.TurnEnd? {
      BatchMember(after, sid, b);
      TurnEndAgain(log, sid);
    } else {
      OutcomesAgain(log, sid, b);
    }
  }

  lemma SurviveNeeded(log: seq<Event>, sid: string)
    requires forall b :: b in RecoveryEvents(Recovered(log, sid), sid) ==> b.id in Ids(Recovered(log, sid))
    ensures WaitsSurvive(log)
  {
    var after := Recovered(log, sid);
    DeferredAfter(log, sid);
    StepsClosedExactly(log, sid);
    forall key | key in KeysOf(OpenSteps(log)) * DeferredSteps(log) && RecoverStepEnd(key) !in Ids(log)
      ensures key in KeptSteps(log)
    {
      if key !in KeptSteps(log) {
        StepEndAgain(log, sid, key);
        StepEndInBatch(after, sid, key);
      }
    }
    var turn := TurnsOf(log).turn;
    TurnClosedExactly(log, sid);
    if TurnsOf(log).open > 0 && turn in DeferredTurns(log) && RecoverTurnEnd(turn) !in Ids(log) && turn !in KeptTurns(log) {
      TurnEndInBatch(after, sid);
      TurnEndAgain(log, sid);
    }
  }

  lemma TurnEndInBatch(log: seq<Event>, sid: string)
    requires ClosesTurn(log)
    ensures exists b :: b in RecoveryEvents(log, sid) && b.id == RecoverTurnEnd(TurnsOf(log).turn)
  {
    assert TurnEndEvents(log, sid)[0] in RecoveryEvents(log, sid);
  }

  /** A second recovery changes nothing if and only if every scope the first one spared is still
      waited in when it is done. */
  lemma RecoveryIsIdempotent(log: seq<Event>, sid: string)
    ensures Recovered(Recovered(log, sid), sid) == Recovered(log, sid) <==> WaitsSurvive(log)
  {
    var after := Recovered(log, sid);
    UnchangedExactly(after, sid);
    if WaitsSurvive(log) {
      forall b | b in RecoveryEvents(after, sid) ensures b.id in Ids(after) { StepEndsAgain(log, sid, b); }
    } else if forall b :: b in RecoveryEvents(after, sid) ==> b.id in Ids(after) {
      SurviveNeeded(log, sid);
    }
  }

  /** No waiting call is settled into a closed or unknown step. */
  ghost predicate SettlesIntoOpenSteps(log: seq<Event>) {
    forall c :: c in Calls(log) && Settled(log, c) && ScopeOf(log, c).pending ==>
      ScopeOf(log, c).location.Some? && LocationKey(ScopeOf(log, c)) !in ClosedSteps(log)
  }

  /** A waiting scope is lost only to a settled call, so then nothing is lost. */
  lemma WaitsSurviveWhen(log: seq<Event>)
    requires SettlesIntoOpenSteps(log)
    ensures WaitsSurvive(log) && DeferredSteps(log) <= KeptSteps(log) && DeferredTurns(log) <= KeptTurns(log)
  {
    forall c | c in Calls(log) && KeepsOpen(log, c) ensures KeptAfter(log, c) {
      assert LocationKey(ScopeOf(log, c)) in DeferredSteps(log);
    }
  }

  /** No recovery event of this log has been appended before. */
  ghost predicate FreshRecovery(log: seq<Event>, sid: string) {
    forall b :: b in RecoveryEvents(log, sid) ==> b.id !in Ids(log)
  }

  lemma NoStepEndLeft(log: seq<Event>, sid: string, b: Event)
    requires FreshRecovery(log, sid) && SettlesIntoOpenSteps(log)
    ensures !(b in RecoveryEvents(Recovered(log, sid), sid) && b.payload.StepEnd?)
  {
    if b in RecoveryEvents(Recovered(log, sid), sid) && b.payload.StepEnd? {
      StepEndOfBatch(Recovered(log, sid), sid, b);
      StepIsKept(log, sid, b.Key());
    }
  }

  /** With unused ids, a step that recovery leaves open is still waited in. */
  lemma StepIsKept(log: seq<Event>, sid: string, key: StepKey)
    requires FreshRecovery(log, sid) && SettlesIntoOpenSteps(log) && key in KeysOf(OpenSteps(Recovered(log, sid)))
    ensures key in DeferredSteps(Recovered(log, sid))
  {
    WaitsSurviveWhen(log);
    StepsClosedExactly(log, sid);
    DeferredAfter(log, sid);
    var s :| s in OpenSteps(Recovered(log, sid)) && s.Key() == key;
    if key !in DeferredSteps(log) { StepEndInBatch(log, sid, key); }
  }

  lemma NoTurnEndLeft(log: seq<Event>, sid: string)
    requires FreshRecovery(log, sid) && SettlesIntoOpenSteps(log) && TurnsOf(log).open <= 1
    ensures !ClosesTurn(Recovered(log, sid))
  {
    WaitsSurviveWhen(log);
    DeferredAfter(log, sid);
    TurnCounter(log, sid);
    if ClosesTurn(log) { TurnEndInBatch(log, sid); }
  }

  lemma NoResultLeft(log: seq<Event>, sid: string, call: string)
    requires FreshRecovery(log, sid)
    ensures call !in Dangling(Recovered(log, sid))
  {
    DanglingAfter(log, sid, call);
    if call in Dangling(log) { ResultInBatch(log, sid, call); }
  }

  lemma NoDraftLeft(log: seq<Event>, sid: string, key: StepKey)
    requires FreshRecovery(log, sid) && key in DraftKeys(log)
    ensures !NeedsDraft(Recovered(log, sid), key)
  {
    RecoveredTail(log, sid);
    DraftAfter(log, Recovered(log, sid), key);
    if NeedsDraft(log, key) {
      DraftInBatch(log, sid, key);
      DraftCompletes(log, sid, key);
    } else if DraftCompleted(log, key) {
      CompletedGrows(log, Recovered(log, sid), key);
    }
  }

  /** When moreover no recovery id was used and at most one turn is open, a second recovery has
      nothing to append at all. */
  lemma NothingLeftToRecover(log: seq<Event>, sid: string)
    requires FreshRecovery(log, sid) && SettlesIntoOpenSteps(log) && TurnsOf(log).open <= 1
    ensures RecoveryEvents(Recovered(log, sid), sid) == []
  {
    var after := Recovered(log, sid);
    RecoveredTail(log, sid);
    NoTurnEndLeft(log, sid);
    forall b ensures b !in RecoveryEvents(after, sid) {
      NoEventLeft(log, sid, b);
    }
    NoMembers(RecoveryEvents(after, sid));
  }

  lemma NoEventLeft(log: seq<Event>, sid: string, b: Event)
    requires FreshRecovery(log, sid) && SettlesIntoOpenSteps(log) && !ClosesTurn(Recovered(log, sid))
    ensures b !in RecoveryEvents(Recovered(log, sid), sid)
  {
    var after := Recovered(log, sid);
    RecoveredTail(log, sid);
    DraftAfter(log, after, b.Key());
    DraftMembers(after, DraftKeys(after), sid);
    ResultMembers(after, Dangling(after), sid);
    StepEndMembers(OpenSteps(after), DeferredSteps(after), sid);
    NoResultLeft(log, sid, b.call);
    NoStepEndLeft(log, sid, b);
    if b.Key() in DraftKeys(log) { NoDraftLeft(log, sid, b.Key()); }
  }

  /** After one recovery nothing it could settle is left, so a second one always finishes the work:
      a third changes nothing, whatever the log. */
  lemma RecoveryConverges(log: seq<Event>, sid: string)
    ensures var twice := Recovered(Recovered(log, sid), sid);
            Recovered(twice, sid) == twice
  {
    var after := Recovered(log, sid);
    forall c ensures !Settled(after, c) {
      DanglingAfter(log, sid, c);
      if c in Dangling(after) { IdAfter(log, sid, RecoverUnknown(c)); }
    }
    WaitsSurviveWhen(after);
    RecoveryIsIdempotent(after, sid);
  }

  /** A deferred call whose step has ended and whose body was then dispatched: a resume appends the
      step's end even when the tool defers again, and a second approval dispatches the call. */
  const DISPATCHED_WHILE_WAITING := [
    Event(1, Emitted("a"), "", "r", "t", "", "", [], TurnStart),
    Event(2, Emitted("b"), "", "r", "t", "s", "c", [], ToolDeferred("k")),
    Event(3, Emitted("c"), "", "r", "t", "s", "", [], StepEnd),
    Event(4, Emitted("d"), "", "r", "t", "s", "c", [], ToolDispatched)]

  lemma DispatchedPrefixes()
    ensures var log := DISPATCHED_WHILE_WAITING;
            log[..3][..2] == log[..2] && log[..2][..1] == log[..1] && log[..1][..0] == []
  {
  }

  lemma DispatchedFolds()
    ensures var log := DISPATCHED_WHILE_WAITING;
            && StateOf(log, "c") == CallDispatched && ScopeOf(log, "c") == Scope(true, Some(log[1]), false)
            && TurnsOf(log) == Turns(1, "t", "r")
  {
    var log := DISPATCHED_WHILE_WAITING;
    DispatchedPrefixes();
    assert StateOf(log[..1], "c") == CallPending && ScopeOf(log[..1], "c") == NO_SCOPE;
    assert TurnsOf(log[..1]) == Turns(1, "t", "r");
    assert ScopeOf(log[..2], "c") == Scope(true, Some(log[1]), false) && TurnsOf(log[..2]) == Turns(1, "t", "r");
    assert ScopeOf(log[..3], "c") == Scope(true, Some(log[1]), false) && TurnsOf(log[..3]) == Turns(1, "t", "r");
  }

  lemma DispatchedSets()
    ensures var log := DISPATCHED_WHILE_WAITING;
            Calls(log) == {"c"} && STEP in ClosedSteps(log) && forall id :: id in Ids(log) ==> id.Emitted?
  {
    var log := DISPATCHED_WHILE_WAITING;
    assert log[1] in log && log[2] in log;
    assert log[2].Key() == STEP;
  }

  /** The first recovery spares the turn for the waiting call while it settles that very call, so a
      second recovery appends the turn's end. */
  lemma SecondRecoveryEndsTheTurn(sid: string)
    ensures var after := Recovered(DISPATCHED_WHILE_WAITING, sid);
            TurnsOf(after).open == 1 && TurnsOf(Recovered(after, sid)).open == 0
  {
    var log := DISPATCHED_WHILE_WAITING;
    DispatchedFolds();
    DispatchedSets();
    DanglingByState(log);
    LostWaitEndsTheTurn(log, sid, "c");
  }

  /** A single call that waits in the open turn, is settled, and whose step has ended. */
  lemma LostWaitEndsTheTurn(log: seq<Event>, sid: string, call: string)
    requires Calls(log) == {call} && Settled(log, call) && ScopeOf(log, call).pending
    requires LocationKey(ScopeOf(log, call)) in ClosedSteps(log) && LocationKey(ScopeOf(log, call)).turn == TurnsOf(log).turn
    requires TurnsOf(log).open == 1 && RecoverTurnEnd(TurnsOf(log).turn) !in Ids(log)
    ensures TurnsOf(Recovered(log, sid)).open == 1 && TurnsOf(Recovered(Recovered(log, sid), sid)).open == 0
  {
    var after := Recovered(log, sid);
    assert KeepsOpen(log, call);
    assert LocationKey(ScopeOf(log, call)).turn in DeferredTurns(log);
    assert !KeptAfter(log, call);
    TurnClosedExactly(log, sid);
    DeferredAfter(log, sid);
    TurnEndAgain(log, sid);
    TurnClosedExactly(after, sid);
  }

  // ---------------------------------------------------------------- order

  /** Drafts, then tool results, then step ends, then the turn end. */
  function Rank(p: Payload): nat {
    if p.AssistantMessage? then 0 else if p.ToolResult? then 1 else if p.StepEnd? then 2 else 3
  }

  /** Every event of a batch section has the same rank. */
  ghost predicate AllRank(es: seq<Event>, rank: nat) { forall e :: e in es ==> Rank(e.payload) == rank }

  lemma DraftRanks(log: seq<Event>, sid: string)
    ensures AllRank(DraftEvents(log, DraftKeys(log), sid), 0)
  {
    DraftMembers(log, DraftKeys(log), sid);
  }

  lemma ResultRanks(log: seq<Event>, sid: string)
    ensures AllRank(ResultEvents(log, Dangling(log), sid), 1)
  {
    ResultMembers(log, Dangling(log), sid);
  }

  lemma StepEndRanks(log: seq<Event>, sid: string)
    ensures AllRank(StepEndEvents(OpenSteps(log), DeferredSteps(log), sid), 2)
  {
    StepEndMembers(OpenSteps(log), DeferredSteps(log), sid);
  }

  ghost predicate RankSorted(es: seq<Event>) {
    forall i, j :: 0 <= i < j < |es| ==> Rank(es[i].payload) <= Rank(es[j].payload)
  }

  lemma SectionRank(a: seq<Event>, b: seq<Event>, c: seq<Event>, d: seq<Event>, i: nat)
    requires AllRank(a, 0) && AllRank(b, 1) && AllRank(c, 2) && AllRank(d, 3) && i < |a + b + c + d|
    ensures Rank((a + b + c + d)[i].payload) == Section(i, |a|, |a| + |b|, |a| + |b| + |c|)
    ensures |a| <= i < |a| + |b| ==> (a + b + c + d)[i] == b[i - |a|]
  {
    var es := a + b + c + d;
    if i < |a| {
      assert es[i] == a[i] && a[i] in a;
    } else if i < |a| + |b| {
      assert es[i] == b[i - |a|] && b[i - |a|] in b;
    } else if i < |a| + |b| + |c| {
      assert es[i] == c[i - |a| - |b|] && c[i - |a| - |b|] in c;
    } else {
      assert es[i] == d[i - |a| - |b| - |c|] && d[i - |a| - |b| - |c|] in d;
    }
  }

  lemma SectionsSorted(a: seq<Event>, b: seq<Event>, c: seq<Event>, d: seq<Event>)
    requires AllRank(a, 0) && AllRank(b, 1) && AllRank(c, 2) && AllRank(d, 3)
    ensures RankSorted(a + b + c + d)
  {
    forall i: nat | i < |a + b + c + d|
      ensures Rank((a + b + c + d)[i].payload) == Section(i, |a|, |a| + |b|, |a| + |b| + |c|)
    {
      SectionRank(a, b, c, d, i);
    }
  }

  function Section(i: nat, first: nat, second: nat, third: nat): nat {
    if i < first then 0 else if i < second then 1 else if i < third then 2 else 3
  }

  /** Settled outcomes precede the ends of their steps, which precede the turn end. */
  lemma RecoveryIsOrdered(log: seq<Event>, sid: string)
    ensures RankSorted(RecoveryEvents(log, sid))
  {
    DraftRanks(log, sid);
    ResultRanks(log, sid);
    StepEndRanks(log, sid);
    SectionsSorted(DraftEvents(log, DraftKeys(log), sid), ResultEvents(log, Dangling(log), sid),
                   StepEndEvents(OpenSteps(log), DeferredSteps(log), sid), TurnEndEvents(log, sid));
  }
}
