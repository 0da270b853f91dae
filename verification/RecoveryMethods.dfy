/** Recovery as the source runs it: loops over mutable tables, and one fenced append at the end
    (session/fenced.go:265-344, session/fenced.go:411-558, session/recovery.go). */
module RecoveryMethods {
  import opened Basics
  import opened Events
  import opened Store
  import opened Recovery
  import opened RecoveryTheorems
  import opened RecoveryMeaning
  import opened MemoryStores

  // ---------------------------------------------------------------- dangling calls

  /** What the state table holds for every named call. */
  ghost predicate StatesMatch(state: map<string, CallState>, log: seq<Event>) {
    forall c :: c != "" ==> StateOf(log, c) == (if c in state then state[c] else CallPending)
  }

  method NoteStates(state: map<string, CallState>, e: Event, ghost before: seq<Event>)
    returns (after: map<string, CallState>)
    requires StatesMatch(state, before)
    ensures StatesMatch(after, before + [e])
  {
    after := state;
    assert (before + [e])[..|before|] == before;
    if e.call != "" {
      match e.payload {
        case ToolDispatched => after := state[e.call := CallDispatched];
        case ToolRunning => after := state[e.call := CallDispatched];
        case ToolDeferred(_) => after := state[e.call := CallDeferred];
        case ToolResumeStarted(materialized) =>
          after := state[e.call := if materialized then CallMaterialized else CallResuming];
        case ToolResult(_, _, _, _) => after := state[e.call := CallResult];
        case ApprovalRequested => after := state[e.call := CallApprovalPending];
        case ApprovalResolved =>
          if e.call in state && state[e.call] == CallApprovalPending {
            after := state[e.call := CallApprovalResolved];
          }
        case _ =>
      }
    }
  }

  method RememberCalls(order: seq<string>, calls: seq<string>) returns (out: seq<string>)
    ensures out == RememberAll(order, calls)
  {
    out := order;
    for i := 0 to |calls|
      invariant out == RememberAll(order, calls[..i])
    {
      Snoc(calls, i);
      if calls[i] != "" && calls[i] !in out {
        out := out + [calls[i]];
      }
    }
    assert calls[..|calls|] == calls;
  }

  method DanglingCallIds(log: seq<Event>) returns (dangling: seq<string>)
    ensures dangling == Dangling(log)
  {
    var state: map<string, CallState> := map[];
    var order: seq<string> := [];
    for i := 0 to |log|
      invariant order == CallOrder(log[..i])
      invariant StatesMatch(state, log[..i])
    {
      Snoc(log, i);
      assert log[..i + 1] == log[..i] + [log[i]];
      state := NoteStates(state, log[i], log[..i]);
      if log[i].payload.AssistantMessage? {
        order := RememberCalls(order, log[i].payload.calls);
      } else if NamesCall(log[i].payload) && log[i].call != "" && log[i].call !in order {
        order := order + [log[i].call];
      }
    }
    assert log[..|log|] == log;
    OrderNames(log);
    dangling := [];
    for i := 0 to |order|
      invariant dangling == DanglingIn(log, order[..i])
    {
      Snoc(order, i);
      assert order[i] in order;
      if order[i] in state && (state[order[i]] == CallDispatched || state[order[i]] == CallResuming) {
        dangling := dangling + [order[i]];
      }
    }
    assert order[..|order|] == order;
  }

  method FindOrigins(log: seq<Event>) returns (byId: map<string, StepKey>)
    ensures forall c :: c != "" ==> FindOrigin(log, c) == (if c in byId then Some(byId[c]) else None)
  {
    byId := map[];
    for i := 0 to |log|
      invariant forall c :: c != "" ==> FindOrigin(log[..i], c) == (if c in byId then Some(byId[c]) else None)
    {
      Snoc(log, i);
      var e := log[i];
      if e.payload.ToolCall? && e.call != "" {
        byId := byId[e.call := e.Key()];
      } else if e.payload.AssistantMessage? {
        var calls := e.payload.calls;
        ghost var before := byId;
        for j := 0 to |calls|
          invariant byId.Keys == before.Keys + (set c | c in calls[..j] && c != "")
          invariant forall c :: c in byId ==> byId[c] == (if c in before then before[c] else e.Key())
        {
          assert calls[..j + 1] == calls[..j] + [calls[j]];
          if calls[j] != "" && calls[j] !in byId {
            byId := byId[calls[j] := e.Key()];
          }
        }
        assert calls[..|calls|] == calls;
      }
    }
    assert log[..|log|] == log;
  }

  method DispatchedCallIds(log: seq<Event>) returns (ids: set<string>)
    ensures forall c :: c != "" ==> (c in ids <==> WasDispatched(log, c))
  {
    ids := {};
    for i := 0 to |log|
      invariant forall c :: c != "" ==> (c in ids <==> WasDispatched(log[..i], c))
    {
      ghost var next := log[..i + 1];
      assert forall k :: 0 <= k < i ==> next[k] == log[..i][k];
      assert next[i] == log[i];
      if (log[i].payload.ToolDispatched? || log[i].payload.ToolRunning? || log[i].payload.ToolResumeStarted?) && log[i].call != "" {
        ids := ids + {log[i].call};
      }
    }
    assert log[..|log|] == log;
  }

  /** The synthetic results of the dangling calls. */
  method SettlingResults(log: seq<Event>, dangling: seq<string>, sid: string) returns (out: seq<Event>)
    requires "" !in dangling
    ensures out == ResultEvents(log, dangling, sid)
  {
    var origins := FindOrigins(log);
    var dispatched := DispatchedCallIds(log);
    out := [];
    for i := 0 to |dangling|
      invariant out == ResultEvents(log, dangling[..i], sid)
    {
      Snoc(dangling, i);
      var call := dangling[i];
      assert call in dangling;
      var key := if call in origins then origins[call] else StepKey("", "", "");
      var code := if call in dispatched then "TOOL_OUTCOME_UNKNOWN" else "ABORTED_BEFORE_DISPATCH";
      out := out + [Event(0, RecoverUnknown(call), sid, key.run, key.turn, key.step, call, [], ToolResult(code, code, [], false))];
    }
    assert dangling[..|dangling|] == dangling;
  }

  // ---------------------------------------------------------------- deferred scopes

  /** The four tables of the scope fold. */
  datatype Scopes = Scopes(state: map<string, bool>, locations: map<string, Event>, results: set<string>, closed: set<StepKey>)

  ghost predicate ScopesMatch(t: Scopes, log: seq<Event>) {
    && t.closed == ClosedSteps(log)
    && t.state.Keys <= Calls(log)
    && forall c :: c != "" ==> ScopeOf(log, c) == TableScope(t, c)
  }

  function TableScope(t: Scopes, c: string): Scope {
    Scope(c in t.state && t.state[c], if c in t.locations then Some(t.locations[c]) else None, c in t.results)
  }

  /** One event of the first loop. */
  function NoteScope(t: Scopes, e: Event): Scopes {
    var closed := if e.payload.StepEnd? && e.step != "" && e.turn != "" then t.closed + {e.Key()} else t.closed;
    if e.call == "" then t.(closed := closed)
    else match e.payload
      case ToolDeferred(_) => Scopes(t.state[e.call := true], t.locations[e.call := e], t.results, closed)
      case ToolResumeStarted(materialized) => Scopes(t.state[e.call := materialized], t.locations, t.results, closed)
      case ToolResult(_, _, _, _) => Scopes(t.state[e.call := false], t.locations, t.results + {e.call}, closed)
      case _ => t.(closed := closed)
  }

  lemma ClosedSnoc(before: seq<Event>, e: Event)
    ensures ClosedSteps(before + [e])
         == ClosedSteps(before) + (if e.payload.StepEnd? && e.step != "" && e.turn != "" then {e.Key()} else {})
  {
    assert forall x :: x in before + [e] <==> x in before || x == e;
  }

  lemma CallsSnoc(before: seq<Event>, e: Event)
    ensures Calls(before + [e]) == Calls(before) + (if e.call != "" then {e.call} else {})
  {
    assert forall x :: x in before + [e] <==> x in before || x == e;
  }

  lemma ScopeSnoc(t: Scopes, before: seq<Event>, e: Event, c: string)
    requires c != "" && ScopeOf(before, c) == TableScope(t, c)
    ensures ScopeOf(before + [e], c) == TableScope(NoteScope(t, e), c)
  {
    assert (before + [e])[..|before|] == before;
  }

  lemma ScopesSnoc(t: Scopes, before: seq<Event>, e: Event)
    requires ScopesMatch(t, before)
    ensures ScopesMatch(NoteScope(t, e), before + [e])
  {
    ClosedSnoc(before, e);
    CallsSnoc(before, e);
    forall c | c != "" ensures ScopeOf(before + [e], c) == TableScope(NoteScope(t, e), c) {
      ScopeSnoc(t, before, e, c);
    }
  }

  /** Results and deferrals also enter the state table. */
  ghost predicate StatesCover(t: Scopes) { t.results <= t.state.Keys }

  method NoteScopes(log: seq<Event>) returns (t: Scopes)
    ensures ScopesMatch(t, log) && StatesCover(t)
  {
    t := Scopes(map[], map[], {}, {});
    for i := 0 to |log|
      invariant ScopesMatch(t, log[..i]) && StatesCover(t)
    {
      assert log[..i + 1] == log[..i] + [log[i]];
      ScopesSnoc(t, log[..i], log[i]);
      t := NoteScope(t, log[i]);
    }
    assert log[..|log|] == log;
  }

  function TableKey(t: Scopes, c: string): StepKey {
    if c in t.locations then t.locations[c].Key() else StepKey("", "", "")
  }

  predicate TableKeeps(t: Scopes, c: string) {
    c in t.state && (t.state[c] || (c in t.results && c in t.locations && TableKey(t, c) !in t.closed))
  }

  lemma TableAgrees(t: Scopes, log: seq<Event>, c: string)
    requires ScopesMatch(t, log) && StatesCover(t) && c != ""
    ensures TableKeeps(t, c) <==> c in Calls(log) && KeepsOpen(log, c)
    ensures TableKey(t, c) == LocationKey(ScopeOf(log, c))
  {
    assert ScopeOf(log, c) == TableScope(t, c);
  }

  /** The second loop: the table is visited in any order. */
  method KeptScopes(t: Scopes) returns (steps: set<StepKey>, turns: set<string>)
    ensures steps == set c | c in t.state && TableKeeps(t, c) :: TableKey(t, c)
    ensures turns == set c | c in t.state && TableKeeps(t, c) :: TableKey(t, c).turn
  {
    steps, turns := {}, {};
    var todo := t.state.Keys;
    while todo != {}
      invariant todo <= t.state.Keys
      invariant steps == set c | c in t.state.Keys - todo && TableKeeps(t, c) :: TableKey(t, c)
      invariant turns == set c | c in t.state.Keys - todo && TableKeeps(t, c) :: TableKey(t, c).turn
      decreases |todo|
    {
      var c :| c in todo;
      if TableKeeps(t, c) {
        steps, turns := steps + {TableKey(t, c)}, turns + {TableKey(t, c).turn};
      }
      todo := todo - {c};
    }
  }

  method PendingDeferredScopes(log: seq<Event>) returns (steps: set<StepKey>, turns: set<string>)
    ensures steps == DeferredSteps(log) && turns == DeferredTurns(log)
  {
    var t := NoteScopes(log);
    steps, turns := KeptScopes(t);
    forall c | c != "" ensures (TableKeeps(t, c) <==> c in Calls(log) && KeepsOpen(log, c))
                            && TableKey(t, c) == LocationKey(ScopeOf(log, c)) {
      TableAgrees(t, log, c);
    }
  }

  // ---------------------------------------------------------------- steps and drafts

  method InterruptedStepEnds(log: seq<Event>, deferred: set<StepKey>, sid: string) returns (out: seq<Event>)
    ensures out == StepEndEvents(OpenSteps(log), deferred, sid)
  {
    var open: seq<Event> := [];
    for i := 0 to |log|
      invariant open == OpenSteps(log[..i])
    {
      Snoc(log, i);
      if log[i].step != "" && log[i].turn != "" {
        if log[i].payload.StepStart? {
          open := DropKey(open, log[i].Key()) + [log[i]];
        } else if log[i].payload.StepEnd? {
          open := DropKey(open, log[i].Key());
        }
      }
    }
    assert log[..|log|] == log;
    out := [];
    for i := 0 to |open|
      invariant out == StepEndEvents(open[..i], deferred, sid)
    {
      Snoc(open, i);
      if open[i].Key() !in deferred {
        out := out + [StepEndEvent(open[i].Key(), sid)];
      }
    }
    assert open[..|open|] == open;
  }

  method InterruptedDrafts(log: seq<Event>, sid: string) returns (out: seq<Event>)
    ensures out == DraftEvents(log, DraftKeys(log), sid)
    ensures forall e :: e in out <==> Interrupted(log, e.Key()) && e == RecoveredMessage(log, e.Key(), sid)
    ensures forall i, j :: 0 <= i < j < |out| ==> out[i].Key() != out[j].Key()
  {
    var drafts: map<StepKey, Draft> := map[];
    var completed: set<StepKey> := {};
    var keys: seq<StepKey> := [];
    for i := 0 to |log|
      invariant keys == DraftKeys(log[..i])
      invariant forall k :: DraftOf(log[..i], k) == (if k in drafts then drafts[k] else Draft("", "", []))
      invariant forall k :: k in keys <==> k in drafts
      invariant completed == CompletedKeys(log[..i])
    {
      Snoc(log, i);
      assert log[..i + 1] == log[..i] + [log[i]];
      CompletedSnoc(log[..i], log[i]);
      var key := log[i].Key();
      if log[i].payload.AssistantMessage? {
        completed := completed + {key};
      } else if log[i].payload.AssistantChunk? {
        var current := if key in drafts then drafts[key] else Draft("", "", []);
        if key !in keys {
          keys := keys + [key];
        }
        var content, sources := log[i].payload.content, current.sources + [log[i].seqNo];
        if log[i].payload.thinking {
          drafts := drafts[key := Draft(current.text, current.reasoning + content, sources)];
        } else {
          drafts := drafts[key := Draft(current.text + content, current.reasoning, sources)];
        }
      }
    }
    assert log[..|log|] == log;
    out := [];
    for i := 0 to |keys|
      invariant out == DraftEvents(log, keys[..i], sid)
    {
      Snoc(keys, i);
      var key := keys[i];
      assert key in keys;
      CompletedExactly(log, key);
      var d := drafts[key];
      if key !in completed && !(d.text == "" && d.reasoning == "") {
        out := out + [Event(0, RecoverDraft(key), sid, key.run, key.turn, key.step, "", d.sources,
                            AssistantMessage(d.text, d.reasoning, []))];
      }
    }
    assert keys[..|keys|] == keys;
    DraftsExactly(log, sid);
  }

  function CompletedKeys(log: seq<Event>): set<StepKey> { set e | e in log && e.payload.AssistantMessage? :: e.Key() }

  lemma CompletedSnoc(log: seq<Event>, e: Event)
    ensures CompletedKeys(log + [e]) == CompletedKeys(log) + (if e.payload.AssistantMessage? then {e.Key()} else {})
  {
    assert forall x :: x in log + [e] <==> x in log || x == e;
  }

  lemma CompletedExactly(log: seq<Event>, key: StepKey)
    ensures key in CompletedKeys(log) <==> DraftCompleted(log, key)
  {
    if key in CompletedKeys(log) {
      var e :| e in log && e.payload.AssistantMessage? && e.Key() == key;
      var i :| 0 <= i < |log| && log[i] == e;
    }
  }

  // ---------------------------------------------------------------- recovery

  method OpenTurns(log: seq<Event>) returns (t: Turns)
    ensures t == TurnsOf(log)
  {
    var open, turn, run := 0, "", "";
    for i := 0 to |log|
      invariant Turns(open, turn, run) == TurnsOf(log[..i])
    {
      Snoc(log, i);
      if log[i].payload.TurnStart? {
        open, turn, run := open + 1, log[i].turn, log[i].run;
      } else if log[i].payload.TurnEnd? {
        open := open - 1;
        if open == 0 {
          turn, run := "", "";
        }
      }
    }
    assert log[..|log|] == log;
    t := Turns(open, turn, run);
  }

  /** The whole batch and what the report says about it. */
  method Assemble(log: seq<Event>, sid: string) returns (batch: seq<Event>, report: Report)
    ensures batch == RecoveryEvents(log, sid)
    ensures report == Report(ClosesTurn(log), Dangling(log),
                             |StepEndEvents(OpenSteps(log), DeferredSteps(log), sid)|, |batch|)
  {
    var t := OpenTurns(log);
    batch := InterruptedDrafts(log, sid);
    var steps, turns := PendingDeferredScopes(log);
    var ends := InterruptedStepEnds(log, steps, sid);
    var dangling := DanglingCallIds(log);
    DanglingByState(log);
    var results := SettlingResults(log, dangling, sid);
    batch := batch + results + ends;
    var closes := t.open > 0 && t.turn !in turns;
    if closes {
      batch := batch + [Event(0, RecoverTurnEnd(t.turn), sid, t.run, t.turn, "", "", [], TurnEnd)];
    } else {
      assert batch + [] == batch;
    }
    report := Report(closes, dangling, |ends|, |batch|);
  }

  method Recover(store: MemoryStore, lease: Lease, now: nat) returns (r: Result<Report>)
    requires store.Valid()
    modifies store
    ensures (store.Abs(), r) == AfterRecover(old(store.Abs()), lease, now)
  {
    var sid := lease.session;
    var all := if sid in store.events then store.events[sid] else [];
    var batch, report := Assemble(all, sid);
    if |batch| > 0 {
      var appended := store.AppendFenced(lease, batch, now);
      if appended.Err? {
        return Err(appended.error);
      }
    }
    return Ok(report);
  }

  lemma {:induction false} NoBatchError(sid: string, batch: seq<Event>)
    requires forall e :: e in batch ==> ValidEvent(e) && e.session == sid
    ensures BatchError(sid, batch) == None
  {
    if |batch| > 0 {
      assert batch[0] in batch;
      NoBatchError(sid, batch[1..]);
    }
  }

  /** Recovery fails only for want of the lease, and then changes nothing; with the lease it
      leaves exactly the recovered log and touches no other session. */
  lemma RecoverExactly(st: State, lease: Lease, now: nat)
    ensures var log := st.Log(lease.session);
            var (after, r) := AfterRecover(st, lease, now);
            && (r.Err? <==> RecoveryEvents(log, lease.session) != [] && !Holds(st, lease, now))
            && (r.Err? ==> after == st)
            && (r.Ok? ==> after.Log(lease.session) == Recovered(log, lease.session))
            && (forall sid :: sid != lease.session ==> after.Log(sid) == st.Log(sid))
  {
    BatchIsAcceptable(st.Log(lease.session), lease.session);
  }

  lemma BatchIsAcceptable(log: seq<Event>, sid: string)
    ensures BatchError(sid, RecoveryEvents(log, sid)).None?
  {
    forall e | e in RecoveryEvents(log, sid) ensures ValidEvent(e) && e.session == sid {
      BatchMember(log, sid, e);
      BatchSession(log, sid, e);
    }
    NoBatchError(sid, RecoveryEvents(log, sid));
  }

  lemma BatchSession(log: seq<Event>, sid: string, e: Event)
    requires e in RecoveryEvents(log, sid)
    ensures e.session == sid
  {
    if e in DraftEvents(log, DraftKeys(log), sid) {
      DraftMembers(log, DraftKeys(log), sid);
    } else if e in ResultEvents(log, Dangling(log), sid) {
      ResultMembers(log, Dangling(log), sid);
    } else if e in StepEndEvents(OpenSteps(log), DeferredSteps(log), sid) {
      StepEndMembers(OpenSteps(log), DeferredSteps(log), sid);
    }
  }

  // ---------------------------------------------------------------- deterministic order

  lemma {:induction false} DraftSources(log: seq<Event>, key: StepKey)
    requires Ordered(log)
    ensures key in DraftKeys(log) <==> DraftOf(log, key).sources != []
    ensures FirstSource(log, key) <= LastSeq(log)
  {
    if |log| > 0 {
      DraftSources(log[..|log| - 1], key);
    }
  }

  lemma FirstSourceStays(log: seq<Event>, key: StepKey)
    requires |log| > 0 && DraftOf(log[..|log| - 1], key).sources != []
    ensures FirstSource(log, key) == FirstSource(log[..|log| - 1], key)
  {
  }

  /** Drafts are recovered in the order of their first chunks: the order in which the fold meets
      them is the order the source sorts them into. */
  lemma {:induction false} DraftsAreSorted(log: seq<Event>, i: nat, j: nat)
    requires Ordered(log) && i < j < |DraftKeys(log)|
    ensures FirstSource(log, DraftKeys(log)[i]) < FirstSource(log, DraftKeys(log)[j])
  {
    var before := log[..|log| - 1];
    var keys, keys0 := DraftKeys(log), DraftKeys(before);
    DraftSources(before, keys[i]);
    DraftSources(before, keys[j]);
    assert keys0 <= keys && keys[i] in keys0;
    FirstSourceStays(log, keys[i]);
    if j < |keys0| {
      assert keys[j] in keys0;
      FirstSourceStays(log, keys[j]);
      DraftsAreSorted(before, i, j);
    } else {
      assert FirstSource(log, keys[j]) == LastSeq(log);
      assert LastSeq(before) < LastSeq(log);
    }
  }

  function LastSeq(log: seq<Event>): nat { if |log| == 0 then 0 else log[|log| - 1].seqNo }

  function FirstSource(log: seq<Event>, key: StepKey): nat {
    if DraftOf(log, key).sources == [] then 0 else DraftOf(log, key).sources[0]
  }

  /** Open steps are closed in the order of their starts. */
  lemma {:induction false} OpenStepsAreSorted(log: seq<Event>)
    requires Ordered(log)
    ensures Ordered(OpenSteps(log)) && forall s :: s in OpenSteps(log) ==> s.seqNo <= LastSeq(log)
  {
    if |log| > 0 {
      var before, e := log[..|log| - 1], log[|log| - 1];
      OpenStepsAreSorted(before);
      assert LastSeq(before) < e.seqNo;
      SortedStep(OpenSteps(before), e, LastSeq(before));
    }
  }

  lemma SortedStep(open: seq<Event>, e: Event, last: nat)
    requires Ordered(open) && last < e.seqNo && forall s :: s in open ==> s.seqNo <= last
    ensures Ordered(OpenStep(open, e)) && forall s :: s in OpenStep(open, e) ==> s.seqNo <= e.seqNo
  {
    DropSorted(open, e.Key());
    DropMembers(open, e.Key());
    SortedSnoc(DropKey(open, e.Key()), e);
  }

  lemma SortedSnoc(open: seq<Event>, e: Event)
    requires Ordered(open) && 0 < e.seqNo && forall s :: s in open ==> s.seqNo < e.seqNo
    ensures Ordered(open + [e]) && forall s :: s in open + [e] ==> s.seqNo <= e.seqNo
  {
    assert forall i :: 0 <= i < |open| ==> open[i] in open;
  }

  lemma {:induction false} DropSorted(open: seq<Event>, key: StepKey)
    requires Ordered(open)
    ensures Ordered(DropKey(open, key))
  {
    if |open| > 0 {
      var init := open[..|open| - 1];
      DropSorted(init, key);
      DropMembers(init, key);
      var dropped := DropKey(init, key);
      forall i | 0 <= i < |dropped| ensures dropped[i].seqNo < open[|open| - 1].seqNo {
        assert dropped[i] in dropped;
      }
    }
  }
}
