/** The folds fenced recovery reads from an interrupted log (session/fenced.go:265-344,
    session/fenced.go:411-558, session/recovery.go) and the events it appends. */
module Recovery {
  import opened Events
  import opened Store

  // ---------------------------------------------------------------- call states

  datatype CallState =
    | CallPending
    | CallDispatched
    | CallDeferred
    | CallResuming
    | CallMaterialized
    | CallResult
    | CallApprovalPending
    | CallApprovalResolved

  /** How one event moves the state of one call. Admission and the model's own mention of a call
      leave it pending. */
  function NextState(s: CallState, e: Event, call: string): CallState {
    if e.call != call then s
    else match e.payload
      case ToolDispatched => CallDispatched
      case ToolRunning => CallDispatched
      case ToolDeferred(_) => CallDeferred
      case ToolResumeStarted(materialized) => if materialized then CallMaterialized else CallResuming
      case ToolResult(_, _, _, _) => CallResult
      case ApprovalRequested => CallApprovalPending
      case ApprovalResolved => if s == CallApprovalPending then CallApprovalResolved else s
      case _ => s
  }

  function StateOf(log: seq<Event>, call: string): CallState {
    if |log| == 0 then CallPending
    else NextState(StateOf(log[..|log| - 1], call), log[|log| - 1], call)
  }

  function Remember(order: seq<string>, call: string): seq<string> {
    if call == "" || call in order then order else order + [call]
  }

  function RememberAll(order: seq<string>, calls: seq<string>): seq<string> {
    if |calls| == 0 then order
    else Remember(RememberAll(order, calls[..|calls| - 1]), calls[|calls| - 1])
  }

  predicate NamesCall(p: Payload) {
    || p.ToolCall? || p.ToolDispatched? || p.ToolRunning? || p.ToolDeferred? || p.ToolResumeStarted?
    || p.ToolResult? || p.ApprovalRequested? || p.ApprovalResolved?
  }

  /** The calls a log mentions, in order of first mention. */
  function CallOrder(log: seq<Event>): seq<string> {
    if |log| == 0 then []
    else
      var before := CallOrder(log[..|log| - 1]);
      var e := log[|log| - 1];
      if e.payload.AssistantMessage? then RememberAll(before, e.payload.calls)
      else if NamesCall(e.payload) then Remember(before, e.call)
      else before
  }

  /** A call whose outcome is unknown: its barrier is durable and nothing durable followed. */
  predicate IsDangling(s: CallState) { s == CallDispatched || s == CallResuming }

  function DanglingIn(log: seq<Event>, order: seq<string>): seq<string> {
    if |order| == 0 then []
    else
      var call := order[|order| - 1];
      DanglingIn(log, order[..|order| - 1]) + (if IsDangling(StateOf(log, call)) then [call] else [])
  }

  function Dangling(log: seq<Event>): seq<string> { DanglingIn(log, CallOrder(log)) }

  /** Where a call was requested: its last tool/call record, or else the first message naming it. */
  function OriginStep(found: Option<StepKey>, e: Event, call: string): Option<StepKey> {
    if e.payload.ToolCall? && e.call == call then Some(e.Key())
    else if e.payload.AssistantMessage? && call in e.payload.calls && found.None? then Some(e.Key())
    else found
  }

  function FindOrigin(log: seq<Event>, call: string): Option<StepKey> {
    if |log| == 0 then None
    else OriginStep(FindOrigin(log[..|log| - 1], call), log[|log| - 1], call)
  }

  function Origin(log: seq<Event>, call: string): StepKey {
    var found := FindOrigin(log, call);
    if found.Some? then found.value else StepKey("", "", "")
  }

  /** Whether an execution barrier of the call is on the log. */
  predicate WasDispatched(log: seq<Event>, call: string) {
    exists i :: 0 <= i < |log| && log[i].call == call
      && (log[i].payload.ToolDispatched? || log[i].payload.ToolRunning? || log[i].payload.ToolResumeStarted?)
  }

  // ---------------------------------------------------------------- open steps and turns

  function DropKey(open: seq<Event>, key: StepKey): seq<Event> {
    if |open| == 0 then []
    else
      var e := open[|open| - 1];
      DropKey(open[..|open| - 1], key) + (if e.Key() == key then [] else [e])
  }

  function OpenStep(open: seq<Event>, e: Event): seq<Event> {
    if e.step == "" || e.turn == "" then open
    else match e.payload
      case StepStart => DropKey(open, e.Key()) + [e]
      case StepEnd => DropKey(open, e.Key())
      case _ => open
  }

  /** The step/start events without a later step/end of the same key, oldest first. */
  function OpenSteps(log: seq<Event>): seq<Event> {
    if |log| == 0 then [] else OpenStep(OpenSteps(log[..|log| - 1]), log[|log| - 1])
  }

  /** The turn counter: how many turns are open and the last one opened. */
  datatype Turns = Turns(open: int, turn: string, run: string)

  function NextTurns(t: Turns, e: Event): Turns {
    match e.payload
    case TurnStart => Turns(t.open + 1, e.turn, e.run)
    case TurnEnd => if t.open - 1 == 0 then Turns(0, "", "") else t.(open := t.open - 1)
    case _ => t
  }

  function TurnsOf(log: seq<Event>): Turns {
    if |log| == 0 then Turns(0, "", "") else NextTurns(TurnsOf(log[..|log| - 1]), log[|log| - 1])
  }

  // ---------------------------------------------------------------- deferred scopes

  /** What the scope fold knows about one call. */
  datatype Scope = Scope(pending: bool, location: Option<Event>, result: bool)

  const NO_SCOPE := Scope(false, None, false)

  function NextScope(s: Scope, e: Event, call: string): Scope {
    if e.call != call then s
    else match e.payload
      case ToolDeferred(_) => Scope(true, Some(e), s.result)
      case ToolResumeStarted(materialized) => s.(pending := materialized)
      case ToolResult(_, _, _, _) => Scope(false, s.location, true)
      case _ => s
  }

  function ScopeOf(log: seq<Event>, call: string): Scope {
    if |log| == 0 then NO_SCOPE else NextScope(ScopeOf(log[..|log| - 1], call), log[|log| - 1], call)
  }

  function ClosedSteps(log: seq<Event>): set<StepKey> {
    set e | e in log && e.payload.StepEnd? && e.step != "" && e.turn != "" :: e.Key()
  }

  function LocationKey(s: Scope): StepKey {
    if s.location.Some? then s.location.value.Key() else StepKey("", "", "")
  }

  /** A call that keeps its step open: it waits, or it has a result its step has not absorbed. */
  predicate KeepsOpen(log: seq<Event>, call: string) {
    var s := ScopeOf(log, call);
    s.pending || (s.result && s.location.Some? && LocationKey(s) !in ClosedSteps(log))
  }

  function Calls(log: seq<Event>): set<string> { set e | e in log && e.call != "" :: e.call }

  function DeferredSteps(log: seq<Event>): set<StepKey> {
    set call | call in Calls(log) && KeepsOpen(log, call) :: LocationKey(ScopeOf(log, call))
  }

  function DeferredTurns(log: seq<Event>): set<string> {
    set call | call in Calls(log) && KeepsOpen(log, call) :: LocationKey(ScopeOf(log, call)).turn
  }

  // ---------------------------------------------------------------- interrupted drafts

  /** The steps with streamed chunks, in order of their first chunk. */
  function DraftKeys(log: seq<Event>): seq<StepKey> {
    if |log| == 0 then []
    else
      var before := DraftKeys(log[..|log| - 1]);
      var e := log[|log| - 1];
      if e.payload.AssistantChunk? && e.Key() !in before then before + [e.Key()] else before
  }

  /** What the chunks of one step assemble to. */
  datatype Draft = Draft(text: string, reasoning: string, sources: seq<nat>)

  function NextDraft(d: Draft, e: Event, key: StepKey): Draft {
    if !e.payload.AssistantChunk? || e.Key() != key then d
    else if e.payload.thinking then Draft(d.text, d.reasoning + e.payload.content, d.sources + [e.seqNo])
    else Draft(d.text + e.payload.content, d.reasoning, d.sources + [e.seqNo])
  }

  function DraftOf(log: seq<Event>, key: StepKey): Draft {
    if |log| == 0 then Draft("", "", []) else NextDraft(DraftOf(log[..|log| - 1], key), log[|log| - 1], key)
  }

  predicate DraftCompleted(log: seq<Event>, key: StepKey) {
    exists i :: 0 <= i < |log| && log[i].payload.AssistantMessage? && log[i].Key() == key
  }

  predicate NeedsDraft(log: seq<Event>, key: StepKey) {
    !DraftCompleted(log, key) && !(DraftOf(log, key).text == "" && DraftOf(log, key).reasoning == "")
  }

  // ---------------------------------------------------------------- the recovery batch

  function DraftEvent(log: seq<Event>, key: StepKey, sid: string): Event {
    var d := DraftOf(log, key);
    Event(0, RecoverDraft(key), sid, key.run, key.turn, key.step, "", d.sources, AssistantMessage(d.text, d.reasoning, []))
  }

  function DraftEvents(log: seq<Event>, keys: seq<StepKey>, sid: string): seq<Event> {
    if |keys| == 0 then []
    else
      var key := keys[|keys| - 1];
      DraftEvents(log, keys[..|keys| - 1], sid) + (if NeedsDraft(log, key) then [DraftEvent(log, key, sid)] else [])
  }

  function OutcomeCode(log: seq<Event>, call: string): string {
    if WasDispatched(log, call) then "TOOL_OUTCOME_UNKNOWN" else "ABORTED_BEFORE_DISPATCH"
  }

  /** The synthetic result of a call whose outcome was never observed; it records no sources. */
  function UnknownResult(log: seq<Event>, call: string, sid: string): Event {
    var key := Origin(log, call);
    Event(0, RecoverUnknown(call), sid, key.run, key.turn, key.step, call, [],
          ToolResult(OutcomeCode(log, call), OutcomeCode(log, call), [], false))
  }

  function ResultEvents(log: seq<Event>, calls: seq<string>, sid: string): seq<Event> {
    if |calls| == 0 then []
    else ResultEvents(log, calls[..|calls| - 1], sid) + [UnknownResult(log, calls[|calls| - 1], sid)]
  }

  function StepEndEvent(key: StepKey, sid: string): Event {
    Event(0, RecoverStepEnd(key), sid, key.run, key.turn, key.step, "", [], StepEnd)
  }

  /** Every open step outside the deferred ones is closed. */
  function StepEndEvents(open: seq<Event>, deferred: set<StepKey>, sid: string): seq<Event> {
    if |open| == 0 then []
    else
      var start := open[|open| - 1];
      StepEndEvents(open[..|open| - 1], deferred, sid) + (if start.Key() in deferred then [] else [StepEndEvent(start.Key(), sid)])
  }

  predicate ClosesTurn(log: seq<Event>) {
    TurnsOf(log).open > 0 && TurnsOf(log).turn !in DeferredTurns(log)
  }

  function TurnEndEvents(log: seq<Event>, sid: string): seq<Event> {
    var t := TurnsOf(log);
    if ClosesTurn(log) then [Event(0, RecoverTurnEnd(t.turn), sid, t.run, t.turn, "", "", [], TurnEnd)] else []
  }

  /** Tool outcomes settle first, then the steps, and only then the containing turn. */
  function RecoveryEvents(log: seq<Event>, sid: string): seq<Event> {
    DraftEvents(log, DraftKeys(log), sid)
    + ResultEvents(log, Dangling(log), sid)
    + StepEndEvents(OpenSteps(log), DeferredSteps(log), sid)
    + TurnEndEvents(log, sid)
  }

  /** The log after recovery: the batch goes through the idempotent fenced append. */
  function Recovered(log: seq<Event>, sid: string): seq<Event> {
    AppendedNew(log, sid, RecoveryEvents(log, sid))
  }

  datatype Report = Report(turnClosed: bool, danglingCalls: seq<string>, stepsClosed: nat, eventsAppended: nat)

  /** `Recover` on the store: nothing to do needs no lease, anything else is one fenced append. */
  function AfterRecover(st: State, lease: Lease, now: nat): (State, Result<Report>) {
    var log := st.Log(lease.session);
    var batch := RecoveryEvents(log, lease.session);
    var report := Report(ClosesTurn(log), Dangling(log),
                         |StepEndEvents(OpenSteps(log), DeferredSteps(log), lease.session)|, |batch|);
    if |batch| == 0 then (st, Ok(report))
    else
      var (after, appended) := FencedAppend(st, lease, batch, now);
      (after, if appended.Err? then Err(appended.error) else Ok(report))
  }
}
