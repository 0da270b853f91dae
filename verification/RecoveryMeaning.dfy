/** What the folds of recovery say about the log itself: which events make a call dangle, a call
    wait, and a step or turn stay open, where a call was requested, and what a recovered draft says. */
module RecoveryMeaning {
  import opened Events
  import opened Store
  import opened Recovery
  import opened RecoveryTheorems

  // ---------------------------------------------------------------- dangling calls

  /** A durable execution barrier. */
  predicate StartsBody(p: Payload) { p.ToolDispatched? || p.ToolRunning? || p == ToolResumeStarted(false) }

  /** A durable record of what became of the body, or of a wait before it. */
  predicate Accounts(p: Payload) {
    p.ToolResult? || p.ToolDeferred? || p == ToolResumeStarted(true) || p.ApprovalRequested?
  }

  /** The barrier at `i` has nothing to account for it. */
  ghost predicate Unaccounted(log: seq<Event>, call: string, i: nat) {
    && i < |log| && log[i].call == call && StartsBody(log[i].payload)
    && forall j :: i < j < |log| && log[j].call == call ==> !Accounts(log[j].payload)
  }

  lemma UnaccountedSnoc(log: seq<Event>, call: string, i: nat)
    requires |log| > 0 && i < |log| - 1
    ensures Unaccounted(log, call, i)
       <==> Unaccounted(log[..|log| - 1], call, i) && !(log[|log| - 1].call == call && Accounts(log[|log| - 1].payload))
  {
    var before := log[..|log| - 1];
    assert forall j :: 0 <= j < |before| ==> before[j] == log[j];
  }

  lemma {:induction false} DanglingState(log: seq<Event>, call: string)
    ensures IsDangling(StateOf(log, call)) <==> exists i: nat :: Unaccounted(log, call, i)
  {
    if |log| > 0 {
      var before, last := log[..|log| - 1], log[|log| - 1];
      DanglingState(before, call);
      if exists i: nat :: Unaccounted(before, call, i) {
        var i: nat :| Unaccounted(before, call, i);
        UnaccountedSnoc(log, call, i);
      }
      if exists i: nat :: Unaccounted(log, call, i) {
        var i: nat :| Unaccounted(log, call, i);
        if i < |log| - 1 { UnaccountedSnoc(log, call, i); }
      }
      if last.call == call && StartsBody(last.payload) {
        assert Unaccounted(log, call, |log| - 1);
      }
    }
  }

  /** The dangling calls are exactly those with a barrier that no later event of the call accounts
      for. */
  lemma DanglingExactly(log: seq<Event>, call: string)
    ensures call in Dangling(log) <==> call != "" && exists i: nat :: Unaccounted(log, call, i)
  {
    DanglingByState(log);
    DanglingState(log, call);
  }

  // ---------------------------------------------------------------- waiting calls

  predicate StartsWait(p: Payload) { p.ToolDeferred? || p == ToolResumeStarted(true) }

  predicate EndsWait(p: Payload) { p.ToolResult? || p == ToolResumeStarted(false) }

  ghost predicate StillWaits(log: seq<Event>, call: string, i: nat) {
    && i < |log| && log[i].call == call && StartsWait(log[i].payload)
    && forall j :: i < j < |log| && log[j].call == call ==> !EndsWait(log[j].payload)
  }

  lemma StillWaitsSnoc(log: seq<Event>, call: string, i: nat)
    requires |log| > 0 && i < |log| - 1
    ensures StillWaits(log, call, i)
       <==> StillWaits(log[..|log| - 1], call, i) && !(log[|log| - 1].call == call && EndsWait(log[|log| - 1].payload))
  {
    var before := log[..|log| - 1];
    assert forall j :: 0 <= j < |before| ==> before[j] == log[j];
  }

  /** A call waits exactly when it was deferred, or given a stored result, and neither a result nor
      a fresh execution followed. */
  lemma {:induction false} WaitingExactly(log: seq<Event>, call: string)
    ensures ScopeOf(log, call).pending <==> exists i: nat :: StillWaits(log, call, i)
  {
    if |log| > 0 {
      var before, last := log[..|log| - 1], log[|log| - 1];
      WaitingExactly(before, call);
      if exists i: nat :: StillWaits(before, call, i) {
        var i: nat :| StillWaits(before, call, i);
        StillWaitsSnoc(log, call, i);
      }
      if exists i: nat :: StillWaits(log, call, i) {
        var i: nat :| StillWaits(log, call, i);
        if i < |log| - 1 { StillWaitsSnoc(log, call, i); }
      }
      if last.call == call && StartsWait(last.payload) {
        assert StillWaits(log, call, |log| - 1);
      }
    }
  }

  // ---------------------------------------------------------------- open steps

  ghost predicate NeverEnded(log: seq<Event>, key: StepKey, i: nat) {
    && i < |log| && log[i].payload.StepStart? && log[i].Key() == key
    && forall j :: i < j < |log| && log[j].Key() == key ==> !log[j].payload.StepEnd?
  }

  lemma NeverEndedSnoc(log: seq<Event>, key: StepKey, i: nat)
    requires |log| > 0 && i < |log| - 1
    ensures NeverEnded(log, key, i)
       <==> NeverEnded(log[..|log| - 1], key, i) && !(log[|log| - 1].Key() == key && log[|log| - 1].payload.StepEnd?)
  {
    var before := log[..|log| - 1];
    assert forall j :: 0 <= j < |before| ==> before[j] == log[j];
  }

  lemma OpenKeysSnoc(log: seq<Event>, key: StepKey)
    requires |log| > 0 && key.step != "" && key.turn != ""
    ensures key in KeysOf(OpenSteps(log)) <==>
              var e := log[|log| - 1];
              if e.Key() == key && e.payload.StepStart? then true
              else if e.Key() == key && e.payload.StepEnd? then false
              else key in KeysOf(OpenSteps(log[..|log| - 1]))
  {
    var before, e := OpenSteps(log[..|log| - 1]), log[|log| - 1];
    DropMembers(before, e.Key());
    assert forall x :: x in DropKey(before, e.Key()) + [e] <==> x in DropKey(before, e.Key()) || x == e;
  }

  /** A step is open exactly when some start of it has no end after it. */
  lemma {:induction false} OpenStepsExactly(log: seq<Event>, key: StepKey)
    requires key.step != "" && key.turn != ""
    ensures key in KeysOf(OpenSteps(log)) <==> exists i: nat :: NeverEnded(log, key, i)
  {
    if |log| > 0 {
      var before, last := log[..|log| - 1], log[|log| - 1];
      OpenStepsExactly(before, key);
      OpenKeysSnoc(log, key);
      if exists i: nat :: NeverEnded(before, key, i) {
        var i: nat :| NeverEnded(before, key, i);
        NeverEndedSnoc(log, key, i);
      }
      if exists i: nat :: NeverEnded(log, key, i) {
        var i: nat :| NeverEnded(log, key, i);
        if i < |log| - 1 { NeverEndedSnoc(log, key, i); }
      }
      if last.Key() == key && last.payload.StepStart? {
        assert NeverEnded(log, key, |log| - 1);
      }
    }
  }

  // ---------------------------------------------------------------- deferred scopes

  ghost predicate LastDeferredAt(log: seq<Event>, call: string, d: nat) {
    && d < |log| && log[d].call == call && log[d].payload.ToolDeferred?
    && forall j :: d < j < |log| && log[j].call == call ==> !log[j].payload.ToolDeferred?
  }

  ghost predicate HasOutcome(log: seq<Event>, call: string) {
    exists j :: 0 <= j < |log| && log[j].call == call && log[j].payload.ToolResult?
  }

  /** A call's scope is that of its newest deferral. */
  lemma {:induction false} ScopeExactly(log: seq<Event>, call: string, d: nat)
    ensures LastDeferredAt(log, call, d) ==> ScopeOf(log, call).location == Some(log[d])
    ensures ScopeOf(log, call).location.None? <==> forall j :: 0 <= j < |log| && log[j].call == call ==> !log[j].payload.ToolDeferred?
    ensures ScopeOf(log, call).result <==> HasOutcome(log, call)
  {
    if |log| > 0 {
      var before := log[..|log| - 1];
      assert forall j :: 0 <= j < |before| ==> before[j] == log[j];
      ScopeExactly(before, call, d);
    }
  }

  ghost predicate StepEnded(log: seq<Event>, key: StepKey) {
    exists j :: 0 <= j < |log| && log[j].payload.StepEnd? && log[j].Key() == key && key.step != "" && key.turn != ""
  }

  lemma EndedIsClosed(log: seq<Event>, key: StepKey)
    ensures key in ClosedSteps(log) <==> StepEnded(log, key)
  {
    if key in ClosedSteps(log) {
      var e :| e in log && e.payload.StepEnd? && e.step != "" && e.turn != "" && e.Key() == key;
      var j :| 0 <= j < |log| && log[j] == e;
    }
    if StepEnded(log, key) {
      var j :| 0 <= j < |log| && log[j].payload.StepEnd? && log[j].Key() == key;
      assert log[j] in log;
    }
  }

  /** A call, last deferred at `d`, keeps that step from being closed: it waits, or its result is not
      absorbed by an end of the step. */
  ghost predicate HoldsStep(log: seq<Event>, call: string, d: nat) {
    && call != "" && LastDeferredAt(log, call, d)
    && ((exists i: nat :: StillWaits(log, call, i)) || (HasOutcome(log, call) && !StepEnded(log, log[d].Key())))
  }

  /** A waiting call that was never deferred holds no named step. */
  ghost predicate HoldsNone(log: seq<Event>, call: string) {
    && call != "" && (exists i: nat :: StillWaits(log, call, i))
    && forall j :: 0 <= j < |log| && log[j].call == call ==> !log[j].payload.ToolDeferred?
  }

  lemma {:induction false} DeferredPlace(log: seq<Event>, call: string) returns (d: nat)
    requires ScopeOf(log, call).location.Some?
    ensures LastDeferredAt(log, call, d)
  {
    var before, last := log[..|log| - 1], log[|log| - 1];
    if last.call == call && last.payload.ToolDeferred? {
      d := |log| - 1;
    } else {
      d := DeferredPlace(before, call);
      assert forall j :: 0 <= j < |before| ==> before[j] == log[j];
    }
  }

  lemma KeepsExactly(log: seq<Event>, call: string)
    requires call != ""
    ensures KeepsOpen(log, call) <==> HoldsNone(log, call) || exists d: nat :: HoldsStep(log, call, d)
    ensures forall d: nat :: HoldsStep(log, call, d) ==> LocationKey(ScopeOf(log, call)) == log[d].Key()
    ensures HoldsNone(log, call) ==> LocationKey(ScopeOf(log, call)) == StepKey("", "", "")
  {
    WaitingExactly(log, call);
    ScopeExactly(log, call, 0);
    forall d: nat | LastDeferredAt(log, call, d) ensures ScopeOf(log, call).location == Some(log[d]) {
      ScopeExactly(log, call, d);
    }
    if ScopeOf(log, call).location.Some? {
      var d := DeferredPlace(log, call);
      EndedIsClosed(log, log[d].Key());
      assert LocationKey(ScopeOf(log, call)) == log[d].Key();
      if KeepsOpen(log, call) { assert HoldsStep(log, call, d); }
      forall d': nat | HoldsStep(log, call, d') ensures d' == d {}
    }
  }

  lemma WaiterIsCall(log: seq<Event>, call: string)
    requires HoldsNone(log, call) || exists d: nat :: HoldsStep(log, call, d)
    ensures call in Calls(log)
  {
    if HoldsNone(log, call) {
      var i: nat :| StillWaits(log, call, i);
      assert log[i] in log;
    } else {
      var d: nat :| HoldsStep(log, call, d);
      assert log[d] in log;
    }
  }

  /** Recovery spares exactly the steps that some call holds. */
  lemma DeferredStepsExactly(log: seq<Event>, key: StepKey)
    requires key != StepKey("", "", "")
    ensures key in DeferredSteps(log) <==> exists call, d: nat :: HoldsStep(log, call, d) && log[d].Key() == key
  {
    if key in DeferredSteps(log) {
      var call :| call in Calls(log) && KeepsOpen(log, call) && LocationKey(ScopeOf(log, call)) == key;
      KeepsExactly(log, call);
      var d: nat :| HoldsStep(log, call, d);
    }
    if call, d: nat :| HoldsStep(log, call, d) && log[d].Key() == key {
      KeepsExactly(log, call);
      WaiterIsCall(log, call);
    }
  }

  /** And exactly the turns of such steps. */
  lemma DeferredTurnsExactly(log: seq<Event>, turn: string)
    requires turn != ""
    ensures turn in DeferredTurns(log) <==> exists call, d: nat :: HoldsStep(log, call, d) && log[d].turn == turn
  {
    if turn in DeferredTurns(log) {
      var call :| call in Calls(log) && KeepsOpen(log, call) && LocationKey(ScopeOf(log, call)).turn == turn;
      KeepsExactly(log, call);
      var d: nat :| HoldsStep(log, call, d);
    }
    if call, d: nat :| HoldsStep(log, call, d) && log[d].turn == turn {
      KeepsExactly(log, call);
      WaiterIsCall(log, call);
    }
  }

  // ---------------------------------------------------------------- the open turn

  function StartsAndEnds(log: seq<Event>): int {
    if |log| == 0 then 0
    else StartsAndEnds(log[..|log| - 1]) + (if log[|log| - 1].payload.TurnStart? then 1 else if log[|log| - 1].payload.TurnEnd? then -1 else 0)
  }

  ghost predicate LastTurnStart(log: seq<Event>, p: nat) {
    p < |log| && log[p].payload.TurnStart? && forall j :: p < j < |log| ==> !log[j].payload.TurnStart?
  }

  /** As many turns are open as were started and not ended; while some are, the turn to close is the one
      started last. */
  lemma {:induction false} TurnsExactly(log: seq<Event>)
    ensures TurnsOf(log).open == StartsAndEnds(log)
    ensures TurnsOf(log).open > 0 ==> exists p: nat :: LastTurnStart(log, p) && TurnsOf(log).turn == log[p].turn && TurnsOf(log).run == log[p].run
  {
    if |log| > 0 {
      var before, last := log[..|log| - 1], log[|log| - 1];
      assert forall j :: 0 <= j < |before| ==> before[j] == log[j];
      TurnsExactly(before);
      if last.payload.TurnStart? {
        assert LastTurnStart(log, |log| - 1);
      } else if TurnsOf(log).open > 0 {
        var p: nat :| LastTurnStart(before, p) && TurnsOf(before).turn == before[p].turn && TurnsOf(before).run == before[p].run;
        assert LastTurnStart(log, p);
      }
    }
  }

  // ---------------------------------------------------------------- where a call was requested

  predicate CallAt(e: Event, call: string) { e.payload.ToolCall? && e.call == call }

  predicate Carries(e: Event, call: string) { e.payload.AssistantMessage? && call in e.payload.calls }

  /** The call's newest tool/call record, or without one the first message that carries the call. */
  ghost predicate RequestedAt(log: seq<Event>, call: string, i: nat) {
    && i < |log|
    && if CallAt(log[i], call) then forall j :: i < j < |log| ==> !CallAt(log[j], call)
       else Carries(log[i], call) && (forall j :: 0 <= j < |log| ==> !CallAt(log[j], call)) && forall j :: 0 <= j < i ==> !Carries(log[j], call)
  }

  /** A synthetic result is filed under the step its call was requested in. */
  lemma {:induction false} OriginExactly(log: seq<Event>, call: string, i: nat)
    ensures RequestedAt(log, call, i) ==> FindOrigin(log, call) == Some(log[i].Key())
    ensures FindOrigin(log, call).None? <==> forall j :: 0 <= j < |log| ==> !CallAt(log[j], call) && !Carries(log[j], call)
  {
    if |log| > 0 {
      var before := log[..|log| - 1];
      assert forall j :: 0 <= j < |before| ==> before[j] == log[j];
      OriginExactly(before, call, i);
      if i < |before| && RequestedAt(log, call, i) { assert RequestedAt(before, call, i); }
    }
  }

  // ---------------------------------------------------------------- what a recovered draft says

  predicate ChunkOf(e: Event, key: StepKey) { e.payload.AssistantChunk? && e.Key() == key }

  /** The streamed contents of one kind, joined in log order. */
  function Said(log: seq<Event>, key: StepKey, thinking: bool): string {
    if |log| == 0 then ""
    else
      var e := log[|log| - 1];
      Said(log[..|log| - 1], key, thinking) + (if ChunkOf(e, key) && e.payload.thinking == thinking then e.payload.content else "")
  }

  /** The sequences of a step's chunks, in log order. */
  function ChunkSeqs(log: seq<Event>, key: StepKey): seq<nat> {
    if |log| == 0 then []
    else ChunkSeqs(log[..|log| - 1], key) + (if ChunkOf(log[|log| - 1], key) then [log[|log| - 1].seqNo] else [])
  }

  /** A draft's text is what was streamed as text, its reasoning what was streamed as thinking, its
      sources are the chunks. */
  lemma {:induction false} DraftSays(log: seq<Event>, key: StepKey)
    ensures DraftOf(log, key) == Draft(Said(log, key, false), Said(log, key, true), ChunkSeqs(log, key))
  {
    if |log| > 0 {
      DraftSays(log[..|log| - 1], key);
      assert Said(log[..|log| - 1], key, false) + "" == Said(log[..|log| - 1], key, false);
      assert Said(log[..|log| - 1], key, true) + "" == Said(log[..|log| - 1], key, true);
    }
  }

  /** The step streamed something and has no final message. */
  ghost predicate Interrupted(log: seq<Event>, key: StepKey) {
    && (Said(log, key, false) != "" || Said(log, key, true) != "")
    && forall j :: 0 <= j < |log| && log[j].payload.AssistantMessage? ==> log[j].Key() != key
  }

  /** The message recovery writes for a step. */
  function RecoveredMessage(log: seq<Event>, key: StepKey, sid: string): Event {
    Event(0, RecoverDraft(key), sid, key.run, key.turn, key.step, "", ChunkSeqs(log, key),
          AssistantMessage(Said(log, key, false), Said(log, key, true), []))
  }

  lemma {:induction false} SilentUnlessChunked(log: seq<Event>, key: StepKey)
    ensures key in DraftKeys(log) <==> exists j :: 0 <= j < |log| && ChunkOf(log[j], key)
    ensures key !in DraftKeys(log) ==> Said(log, key, false) == "" && Said(log, key, true) == ""
  {
    if |log| > 0 {
      var before := log[..|log| - 1];
      assert forall j :: 0 <= j < |before| ==> before[j] == log[j];
      SilentUnlessChunked(before, key);
    }
  }

  lemma {:induction false} DraftKeysDistinct(log: seq<Event>)
    ensures forall i, j :: 0 <= i < j < |DraftKeys(log)| ==> DraftKeys(log)[i] != DraftKeys(log)[j]
  {
    if |log| > 0 { DraftKeysDistinct(log[..|log| - 1]); }
  }

  lemma NeedsDraftExactly(log: seq<Event>, key: StepKey)
    ensures NeedsDraft(log, key) <==> Interrupted(log, key)
  {
    DraftSays(log, key);
  }

  lemma {:induction false} DraftPlaces(log: seq<Event>, keys: seq<StepKey>, sid: string)
    requires forall i, j :: 0 <= i < j < |keys| ==> keys[i] != keys[j]
    ensures forall i, j :: 0 <= i < j < |DraftEvents(log, keys, sid)| ==> DraftEvents(log, keys, sid)[i].Key() != DraftEvents(log, keys, sid)[j].Key()
    ensures forall e :: e in DraftEvents(log, keys, sid) ==> e.Key() in keys
  {
    if |keys| > 0 {
      var init, last := keys[..|keys| - 1], keys[|keys| - 1];
      assert keys == init + [last];
      DraftPlaces(log, init, sid);
      var before := DraftEvents(log, init, sid);
      forall i | 0 <= i < |before| ensures before[i].Key() != last {
        assert before[i] in before;
      }
    }
  }

  /** Recovery writes one message for every interrupted step, saying what was streamed, and no other. */
  lemma DraftsExactly(log: seq<Event>, sid: string)
    ensures forall e :: e in DraftEvents(log, DraftKeys(log), sid) <==> Interrupted(log, e.Key()) && e == RecoveredMessage(log, e.Key(), sid)
    ensures forall i, j :: 0 <= i < j < |DraftEvents(log, DraftKeys(log), sid)| ==>
              DraftEvents(log, DraftKeys(log), sid)[i].Key() != DraftEvents(log, DraftKeys(log), sid)[j].Key()
  {
    DraftMembers(log, DraftKeys(log), sid);
    DraftKeysDistinct(log);
    DraftPlaces(log, DraftKeys(log), sid);
    forall e ensures e in DraftEvents(log, DraftKeys(log), sid) <==> Interrupted(log, e.Key()) && e == RecoveredMessage(log, e.Key(), sid) {
      NeedsDraftExactly(log, e.Key());
      DraftSays(log, e.Key());
      SilentUnlessChunked(log, e.Key());
    }
  }

  // ---------------------------------------------------------------- the order of dangling calls

  /** The calls one event mentions, in order. */
  function MentionsOf(e: Event): seq<string> {
    if e.payload.AssistantMessage? then e.payload.calls else if NamesCall(e.payload) then [e.call] else []
  }

  function Mentions(log: seq<Event>): seq<string> {
    if |log| == 0 then [] else Mentions(log[..|log| - 1]) + MentionsOf(log[|log| - 1])
  }

  /** `a` occurs in a list before `b` does. */
  ghost predicate Earlier(names: seq<string>, a: string, b: string) {
    exists p :: 0 <= p < |names| && names[p] == a && forall q :: 0 <= q <= p ==> names[q] != b
  }

  /** A list of first occurrences. */
  ghost predicate FirstsOf(order: seq<string>, names: seq<string>) {
    && (forall c :: c in order <==> c != "" && c in names)
    && forall i, j :: 0 <= i < j < |order| ==> Earlier(names, order[i], order[j])
  }

  lemma EarlierStays(names: seq<string>, name: string, a: string, b: string)
    requires Earlier(names, a, b)
    ensures Earlier(names + [name], a, b)
  {
    var p :| 0 <= p < |names| && names[p] == a && forall q :: 0 <= q <= p ==> names[q] != b;
    assert (names + [name])[p] == a;
    assert forall q :: 0 <= q <= p ==> (names + [name])[q] == names[q];
  }

  lemma RememberFirst(order: seq<string>, names: seq<string>, call: string)
    requires FirstsOf(order, names)
    ensures FirstsOf(Remember(order, call), names + [call])
  {
    var after := Remember(order, call);
    assert forall c :: c in names + [call] <==> c in names || c == call;
    forall i, j | 0 <= i < j < |after| ensures Earlier(names + [call], after[i], after[j]) {
      if j < |order| {
        EarlierStays(names, call, order[i], order[j]);
      } else {
        assert order[i] in order;
        var p :| 0 <= p < |names| && names[p] == order[i];
        assert (names + [call])[p] == order[i];
        forall q | 0 <= q <= p ensures (names + [call])[q] != call { assert names[q] in names; }
      }
    }
  }

  lemma {:induction false} RememberAllFirst(order: seq<string>, names: seq<string>, calls: seq<string>)
    requires FirstsOf(order, names)
    ensures FirstsOf(RememberAll(order, calls), names + calls)
  {
    if |calls| == 0 {
      assert names + calls == names;
    } else {
      var init, last := calls[..|calls| - 1], calls[|calls| - 1];
      RememberAllFirst(order, names, init);
      RememberFirst(RememberAll(order, init), names + init, last);
      assert names + init + [last] == names + calls;
    }
  }

  lemma {:induction false} CallOrderIsFirst(log: seq<Event>)
    ensures FirstsOf(CallOrder(log), Mentions(log))
  {
    if |log| > 0 {
      var before, e := log[..|log| - 1], log[|log| - 1];
      CallOrderIsFirst(before);
      if e.payload.AssistantMessage? {
        RememberAllFirst(CallOrder(before), Mentions(before), e.payload.calls);
      } else if NamesCall(e.payload) {
        RememberFirst(CallOrder(before), Mentions(before), e.call);
      } else {
        assert Mentions(before) + [] == Mentions(before);
      }
    }
  }

  lemma {:induction false} DanglingPlace(log: seq<Event>, order: seq<string>, i: nat) returns (k: nat)
    requires i < |DanglingIn(log, order)|
    ensures k < |order| && DanglingIn(log, order)[i] == order[k]
    decreases |order|
  {
    var init := order[..|order| - 1];
    if i < |DanglingIn(log, init)| {
      k := DanglingPlace(log, init, i);
    } else {
      k := |order| - 1;
    }
  }

  lemma {:induction false} DanglingPlaces(log: seq<Event>, order: seq<string>, i: nat, j: nat) returns (k: nat, l: nat)
    requires i < j < |DanglingIn(log, order)|
    ensures k < l < |order| && DanglingIn(log, order)[i] == order[k] && DanglingIn(log, order)[j] == order[l]
    decreases |order|
  {
    var init := order[..|order| - 1];
    if j < |DanglingIn(log, init)| {
      k, l := DanglingPlaces(log, init, i, j);
    } else {
      k := DanglingPlace(log, init, i);
      l := |order| - 1;
    }
  }

  /** Dangling calls are settled in the order in which the log first mentions them. */
  lemma DanglingInMentionOrder(log: seq<Event>, i: nat, j: nat)
    requires i < j < |Dangling(log)|
    ensures Earlier(Mentions(log), Dangling(log)[i], Dangling(log)[j])
  {
    var k, l := DanglingPlaces(log, CallOrder(log), i, j);
    CallOrderIsFirst(log);
  }

  // ---------------------------------------------------------------- the batch

  /** The step a call was requested in, or no step if the log does not say. */
  ghost predicate FiledUnder(log: seq<Event>, call: string, key: StepKey) {
    || (exists i: nat :: RequestedAt(log, call, i) && key == log[i].Key())
    || (key == StepKey("", "", "") && forall j :: 0 <= j < |log| ==> !CallAt(log[j], call) && !Carries(log[j], call))
  }

  lemma {:induction false} SomeRequest(log: seq<Event>, call: string) returns (i: nat)
    requires FindOrigin(log, call).Some?
    ensures RequestedAt(log, call, i)
  {
    var before, last := log[..|log| - 1], log[|log| - 1];
    assert forall j :: 0 <= j < |before| ==> before[j] == log[j];
    if CallAt(last, call) || FindOrigin(before, call).None? {
      i := |log| - 1;
      OriginExactly(before, call, 0);
    } else {
      i := SomeRequest(before, call);
    }
  }

  lemma OriginIsFiled(log: seq<Event>, call: string, key: StepKey)
    ensures Origin(log, call) == key <==> FiledUnder(log, call, key)
  {
    OriginExactly(log, call, 0);
    if FindOrigin(log, call).Some? {
      var i := SomeRequest(log, call);
      OriginExactly(log, call, i);
    }
    forall i: nat | RequestedAt(log, call, i) ensures FindOrigin(log, call) == Some(log[i].Key()) {
      OriginExactly(log, call, i);
    }
  }

  /** Every call with an unaccounted barrier gets one result of unknown outcome, filed under the step
      it was requested in, and no other call does. */
  lemma ResultsExactly(log: seq<Event>, sid: string, e: Event)
    ensures e in ResultEvents(log, Dangling(log), sid) <==>
              && e.call != "" && (exists i: nat :: Unaccounted(log, e.call, i)) && FiledUnder(log, e.call, e.Key())
              && e.seqNo == 0 && e.id == RecoverUnknown(e.call) && e.session == sid && e.sources == []
              && e.payload == ToolResult("TOOL_OUTCOME_UNKNOWN", "TOOL_OUTCOME_UNKNOWN", [], false)
  {
    ResultMembers(log, Dangling(log), sid);
    DanglingExactly(log, e.call);
    OriginIsFiled(log, e.call, e.Key());
    if e.call in Dangling(log) {
      RecoveredOutcomeIsUnknown(log, e.call);
      var u := UnknownResult(log, e.call, sid);
      assert u.Key() == Origin(log, e.call);
    }
  }

  /** Every step that was started and never ended since, and that no call holds, is ended. */
  lemma StepEndsExactly(log: seq<Event>, sid: string, e: Event)
    requires e.step != "" && e.turn != ""
    ensures e in StepEndEvents(OpenSteps(log), DeferredSteps(log), sid) <==>
              && (exists i: nat :: NeverEnded(log, e.Key(), i))
              && !(exists call, d: nat :: HoldsStep(log, call, d) && log[d].Key() == e.Key())
              && e == Event(0, RecoverStepEnd(e.Key()), sid, e.run, e.turn, e.step, "", [], StepEnd)
  {
    StepEndMembers(OpenSteps(log), DeferredSteps(log), sid);
    OpenStepsExactly(log, e.Key());
    DeferredStepsExactly(log, e.Key());
  }

  /** The newest start of a step that was not ended since. */
  ghost predicate LeftOpenAt(log: seq<Event>, i: nat) {
    && i < |log| && log[i].payload.StepStart? && log[i].step != "" && log[i].turn != ""
    && forall j :: i < j < |log| && log[j].Key() == log[i].Key() ==> !log[j].payload.StepStart? && !log[j].payload.StepEnd?
  }

  lemma LeftOpenSnoc(log: seq<Event>, i: nat)
    requires |log| > 0 && i < |log| - 1
    ensures LeftOpenAt(log, i)
       <==> LeftOpenAt(log[..|log| - 1], i)
            && !(log[|log| - 1].Key() == log[i].Key() && (log[|log| - 1].payload.StepStart? || log[|log| - 1].payload.StepEnd?))
  {
    var before := log[..|log| - 1];
    assert forall j :: 0 <= j < |before| ==> before[j] == log[j];
  }

  /** The events of a list stand at these places of the log, in log order. */
  ghost predicate StandAt(log: seq<Event>, es: seq<Event>, ps: seq<nat>) {
    && |ps| == |es| && (forall k :: 0 <= k < |ps| ==> ps[k] < |log| && es[k] == log[ps[k]])
    && forall k, l :: 0 <= k < l < |ps| ==> ps[k] < ps[l]
  }

  lemma {:induction false} DroppedPlaces(log: seq<Event>, open: seq<Event>, ps: seq<nat>, key: StepKey) returns (qs: seq<nat>)
    requires StandAt(log, open, ps)
    ensures StandAt(log, DropKey(open, key), qs)
    ensures forall p :: p in qs <==> p in ps && log[p].Key() != key
  {
    if |open| == 0 {
      qs := [];
    } else {
      var n := |open| - 1;
      assert ps == ps[..n] + [ps[n]];
      var rest := DroppedPlaces(log, open[..n], ps[..n], key);
      qs := if open[n].Key() == key then rest else rest + [ps[n]];
      forall k | 0 <= k < |rest| ensures rest[k] < ps[n] {
        assert rest[k] in ps[..n];
      }
    }
  }

  predicate Opens(e: Event) { e.payload.StepStart? && e.step != "" && e.turn != "" }

  predicate Closes(e: Event, key: StepKey) { e.Key() == key && (e.payload.StepStart? || e.payload.StepEnd?) }

  lemma PlaceAdded(log: seq<Event>, es: seq<Event>, ps: seq<nat>, n: nat)
    requires StandAt(log, es, ps) && n < |log| && forall p :: p in ps ==> p < n
    ensures StandAt(log, es + [log[n]], ps + [n])
  {
    assert forall k :: 0 <= k < |ps| ==> ps[k] in ps;
  }

  /** One event opens its step anew, ends it, or leaves the open ones alone. */
  lemma OpenPlaces(log: seq<Event>, open: seq<Event>, rest: seq<nat>, n: nat) returns (ps: seq<nat>)
    requires n < |log| && StandAt(log, open, rest) && forall p :: p in rest ==> p < n && log[p].step != "" && log[p].turn != ""
    ensures StandAt(log, OpenStep(open, log[n]), ps)
    ensures forall i: nat :: i in ps <==> (i in rest && !Closes(log[n], log[i].Key())) || (i == n && Opens(log[n]))
  {
    var last := log[n];
    if last.step == "" || last.turn == "" || !(last.payload.StepStart? || last.payload.StepEnd?) {
      ps := rest;
    } else {
      var kept := DroppedPlaces(log, open, rest, last.Key());
      if last.payload.StepEnd? {
        ps := kept;
      } else {
        PlaceAdded(log, DropKey(open, last.Key()), kept, n);
        ps := kept + [n];
      }
    }
  }

  /** The open steps are the newest unended starts, oldest first. */
  lemma {:induction false} OpenStepsAre(log: seq<Event>) returns (ps: seq<nat>)
    ensures StandAt(log, OpenSteps(log), ps)
    ensures forall i: nat :: i in ps <==> LeftOpenAt(log, i)
  {
    if |log| == 0 {
      ps := [];
    } else {
      var before, n := log[..|log| - 1], |log| - 1;
      var rest := OpenStepsAre(before);
      assert forall j :: 0 <= j < n ==> before[j] == log[j];
      ps := OpenPlaces(log, OpenSteps(before), rest, n);
      forall i: nat ensures i in ps <==> LeftOpenAt(log, i) {
        if i < n { LeftOpenSnoc(log, i); }
      }
    }
  }

  /** Each event of a list ends the step started at its place, and the places are in log order. */
  ghost predicate EndsOf(log: seq<Event>, ends: seq<Event>, ps: seq<nat>) {
    && |ps| == |ends| && (forall k :: 0 <= k < |ps| ==> ps[k] < |log| && ends[k].Key() == log[ps[k]].Key())
    && forall k, l :: 0 <= k < l < |ps| ==> ps[k] < ps[l]
  }

  lemma EndAdded(log: seq<Event>, ends: seq<Event>, ps: seq<nat>, e: Event, p: nat)
    requires EndsOf(log, ends, ps) && p < |log| && e.Key() == log[p].Key() && forall q :: q in ps ==> q < p
    ensures EndsOf(log, ends + [e], ps + [p])
  {
    assert forall k :: 0 <= k < |ps| ==> ps[k] in ps;
  }

  lemma StandAtFront(log: seq<Event>, es: seq<Event>, ps: seq<nat>)
    requires |es| > 0 && StandAt(log, es, ps)
    ensures StandAt(log, es[..|es| - 1], ps[..|es| - 1])
    ensures forall p :: p in ps[..|es| - 1] ==> p in ps && p < ps[|es| - 1]
  {
  }

  lemma {:induction false} EndPlaces(log: seq<Event>, open: seq<Event>, ps: seq<nat>, deferred: set<StepKey>, sid: string) returns (qs: seq<nat>)
    requires StandAt(log, open, ps)
    ensures EndsOf(log, StepEndEvents(open, deferred, sid), qs) && forall q :: q in qs ==> q in ps
  {
    if |open| == 0 {
      qs := [];
    } else {
      var n := |open| - 1;
      StandAtFront(log, open, ps);
      qs := EndPlaces(log, open[..n], ps[..n], deferred, sid);
      if open[n].Key() !in deferred {
        EndAdded(log, StepEndEvents(open[..n], deferred, sid), qs, StepEndEvent(open[n].Key(), sid), ps[n]);
        qs := qs + [ps[n]];
      }
    }
  }

  /** Open steps are ended in the order of their newest starts. */
  lemma StepEndsInOrder(log: seq<Event>, sid: string) returns (ps: seq<nat>)
    ensures EndsOf(log, StepEndEvents(OpenSteps(log), DeferredSteps(log), sid), ps)
    ensures forall p :: p in ps ==> LeftOpenAt(log, p)
  {
    var places := OpenStepsAre(log);
    ps := EndPlaces(log, OpenSteps(log), places, DeferredSteps(log), sid);
  }

  /** A turn is ended exactly when more turns were started than ended and no call holds a step of the
      one started last. */
  lemma TurnEndsExactly(log: seq<Event>, sid: string, p: nat)
    requires LastTurnStart(log, p) && log[p].turn != "" && StartsAndEnds(log) > 0
    ensures TurnEndEvents(log, sid)
         == if exists call, d: nat :: HoldsStep(log, call, d) && log[d].turn == log[p].turn then []
            else [Event(0, RecoverTurnEnd(log[p].turn), sid, log[p].run, log[p].turn, "", "", [], TurnEnd)]
  {
    TurnsExactly(log);
    DeferredTurnsExactly(log, log[p].turn);
    forall q: nat | LastTurnStart(log, q) ensures q == p {}
  }

  lemma NoTurnToEnd(log: seq<Event>, sid: string)
    ensures StartsAndEnds(log) <= 0 ==> TurnEndEvents(log, sid) == []
  {
    TurnsExactly(log);
  }

  // ---------------------------------------------------------------- the report

  function ResultCalls(batch: seq<Event>): seq<string> {
    if |batch| == 0 then []
    else ResultCalls(batch[..|batch| - 1]) + (if batch[|batch| - 1].payload.ToolResult? then [batch[|batch| - 1].call] else [])
  }

  function StepEndCount(batch: seq<Event>): nat {
    if |batch| == 0 then 0 else StepEndCount(batch[..|batch| - 1]) + (if batch[|batch| - 1].payload.StepEnd? then 1 else 0)
  }

  ghost predicate HasTurnEnd(batch: seq<Event>) { exists e :: e in batch && e.payload.TurnEnd? }

  lemma {:induction false} CountsConcat(a: seq<Event>, b: seq<Event>)
    ensures ResultCalls(a + b) == ResultCalls(a) + ResultCalls(b) && StepEndCount(a + b) == StepEndCount(a) + StepEndCount(b)
  {
    if |b| == 0 {
      assert a + b == a;
    } else {
      CountsConcat(a, b[..|b| - 1]);
      assert (a + b)[..|a + b| - 1] == a + b[..|b| - 1];
    }
  }

  lemma {:induction false} NoResults(es: seq<Event>)
    requires forall e :: e in es ==> !e.payload.ToolResult?
    ensures ResultCalls(es) == []
  {
    if |es| > 0 {
      assert es[|es| - 1] in es;
      NoResults(es[..|es| - 1]);
    }
  }

  lemma {:induction false} StepEndsCounted(es: seq<Event>, all: bool)
    requires forall e :: e in es ==> e.payload.StepEnd? == all
    ensures StepEndCount(es) == if all then |es| else 0
  {
    if |es| > 0 {
      assert es[|es| - 1] in es;
      StepEndsCounted(es[..|es| - 1], all);
    }
  }

  lemma {:induction false} ResultsCounted(log: seq<Event>, calls: seq<string>, sid: string)
    ensures ResultCalls(ResultEvents(log, calls, sid)) == calls
  {
    if |calls| > 0 {
      var init := calls[..|calls| - 1];
      ResultsCounted(log, init, sid);
      var before := ResultEvents(log, init, sid);
      assert (before + [UnknownResult(log, calls[|calls| - 1], sid)])[..|before|] == before;
    }
  }

  lemma SectionCounted(es: seq<Event>, rank: nat)
    requires AllRank(es, rank)
    ensures rank != 1 ==> ResultCalls(es) == []
    ensures StepEndCount(es) == if rank == 2 then |es| else 0
  {
    if rank != 1 { NoResults(es); }
    StepEndsCounted(es, rank == 2);
  }

  lemma SectionsCounted(a: seq<Event>, b: seq<Event>, c: seq<Event>, d: seq<Event>)
    requires AllRank(a, 0) && AllRank(b, 1) && AllRank(c, 2) && AllRank(d, 3)
    ensures ResultCalls(a + b + c + d) == ResultCalls(b) && StepEndCount(a + b + c + d) == |c|
  {
    SectionCounted(a, 0);
    SectionCounted(b, 1);
    SectionCounted(c, 2);
    SectionCounted(d, 3);
    CountsConcat(a, b);
    CountsConcat(a + b, c);
    CountsConcat(a + b + c, d);
  }

  lemma TurnEndIsLast(a: seq<Event>, b: seq<Event>, c: seq<Event>, d: seq<Event>)
    requires AllRank(a, 0) && AllRank(b, 1) && AllRank(c, 2) && forall e :: e in d ==> e.payload.TurnEnd?
    ensures HasTurnEnd(a + b + c + d) <==> d != []
  {
    if d != [] { assert (a + b + c + d)[|a + b + c|] == d[0]; }
    forall e | e in a + b + c + d && e.payload.TurnEnd? ensures d != [] {
      assert e !in a && e !in b && e !in c;
    }
  }

  lemma BatchCounts(log: seq<Event>, sid: string)
    ensures ResultCalls(RecoveryEvents(log, sid)) == Dangling(log)
    ensures StepEndCount(RecoveryEvents(log, sid)) == |StepEndEvents(OpenSteps(log), DeferredSteps(log), sid)|
    ensures HasTurnEnd(RecoveryEvents(log, sid)) <==> ClosesTurn(log)
  {
    var drafts, results := DraftEvents(log, DraftKeys(log), sid), ResultEvents(log, Dangling(log), sid);
    var ends, turn := StepEndEvents(OpenSteps(log), DeferredSteps(log), sid), TurnEndEvents(log, sid);
    DraftRanks(log, sid);
    ResultRanks(log, sid);
    StepEndRanks(log, sid);
    ResultsCounted(log, Dangling(log), sid);
    SectionsCounted(drafts, results, ends, turn);
    TurnEndIsLast(drafts, results, ends, turn);
  }

  /** The report counts what the batch holds: the calls given a result, in order, the step ends, the
      turn end, and all its events. */
  lemma ReportExactly(st: State, lease: Lease, now: nat)
    ensures var (after, r) := AfterRecover(st, lease, now);
            var batch := RecoveryEvents(st.Log(lease.session), lease.session);
            r.Ok? ==> r.value.danglingCalls == ResultCalls(batch) && r.value.stepsClosed == StepEndCount(batch)
                      && (r.value.turnClosed <==> HasTurnEnd(batch)) && r.value.eventsAppended == |batch|
  {
    BatchCounts(st.Log(lease.session), lease.session);
  }
}
