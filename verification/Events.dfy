/** The durable session event vocabulary (session/event.go) with payloads already decoded.

    An event keeps the envelope fields the folds read: its sequence, its stable identity, its
    correlation ids and the sequences it derives from. Payload and envelope call ids agree in
    every writer, so the envelope carries the only copy. */
module Events {

  datatype Option<+T> = None | Some(value: T)

  datatype Role = User | Assistant | System | Tool

  /** One provider-neutral model message: its text parts in order. */
  datatype Message = Message(role: Role, parts: seq<string>)

  /** The (run, turn, step) triple that the source joins into one string key. */
  datatype StepKey = StepKey(run: string, turn: string, step: string)

  /** Event identities used for idempotent appends. A run's emitter numbers its ids. Recovery derives
      its own from what it settles, and an approval record from its call, so a call has at most one of
      each kind; the events of a compaction are named by the loop's owner and the generation. */
  datatype EventId =
    | NoId
    | Emitted(name: string)
    | EmitterId(run: string, n: nat)
    | ApprovalId(call: string, resolved: bool)
    | CompactionId(owner: string, kind: string, generation: nat)
    | RecoverDraft(key: StepKey)
    | RecoverUnknown(call: string)
    | RecoverStepEnd(key: StepKey)
    | RecoverTurnEnd(turn: string)

  datatype Payload =
    | TurnStart
    | TurnEnd
    | StepStart
    | StepEnd
    // Model-facing content.
    | UserMessage(text: string)
    | SurfaceReplacement(generation: nat, tx: string, sourceSeqs: seq<nat>, summary: string, fingerprint: string)
    | SteeringMessage(text: string)
    | InjectedContext(text: string)
    | SkillCatalog(text: string)
    | SkillInvocation(text: string)
    | AssistantMessage(text: string, reasoning: string, calls: seq<string>)
    | ToolResult(output: string, code: string, contexts: seq<Message>, activation: bool)
    | ContextSnapshot(text: string)
    // Streaming drafts.
    | AssistantChunk(thinking: bool, content: string)
    // Tool-call lifecycle.
    | ToolCall
    | ToolAdmitted
    | ToolDispatched
    | ToolRunning
    | ToolDeferred(resumeKey: string)
    | ToolResumeStarted(materialized: bool)
    | ApprovalRequested
    | ApprovalResolved
    // Compaction lifecycle.
    | CompactionStart(generation: nat, tx: string, sourceSeqs: seq<nat>)
    | CompactionSummary(generation: nat, tx: string, sourceSeqs: seq<nat>, summary: string, fingerprint: string)
    | CompactionEnd(generation: nat, tx: string)
    // Every other known type: requests, usage, inbox, skill loads, extensions.
    | Diagnostic(name: string)

  datatype Event = Event(
    seqNo: nat,
    id: EventId,
    session: string,
    run: string,
    turn: string,
    step: string,
    call: string,
    sources: seq<nat>,
    payload: Payload)
  {
    function Key(): StepKey { StepKey(run, turn, step) }
  }

  /** Whether an event takes part in the model-facing projection. */
  predicate IsSurface(p: Payload) {
    || p.UserMessage? || p.SurfaceReplacement? || p.SteeringMessage? || p.InjectedContext?
    || p.SkillCatalog? || p.SkillInvocation? || p.AssistantMessage? || p.ToolResult? || p.ContextSnapshot?
  }

  predicate IsCompaction(p: Payload) {
    p.CompactionStart? || p.CompactionSummary? || p.CompactionEnd?
  }

  /** Sequences are positive and strictly increasing, as the store assigns them. */
  ghost predicate Ordered(events: seq<Event>) {
    && (forall i :: 0 <= i < |events| ==> 0 < events[i].seqNo)
    && (forall i, j :: 0 <= i < j < |events| ==> events[i].seqNo < events[j].seqNo)
  }

  /** The model message of one surface event; a tool result also carries its additional contexts. */
  function Render(p: Payload): seq<Message> {
    match p
    case UserMessage(text) => [Message(User, [text])]
    case SteeringMessage(text) => [Message(User, [text])]
    case InjectedContext(text) => [Message(User, [text])]
    case SkillCatalog(text) => [Message(User, [text])]
    case SkillInvocation(text) => [Message(User, [text])]
    case AssistantMessage(text, reasoning, _) => [Message(Assistant, [reasoning, text])]
    case ToolResult(output, _, contexts, _) => [Message(Tool, [output])] + contexts
    case ContextSnapshot(text) => [Message(System, [text])]
    case _ => []
  }
}
