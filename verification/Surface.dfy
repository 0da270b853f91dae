/** What `Surface.Project` computes (session/surface.go): compaction transactions are folded
    first, call/result pairing is checked, and only then are the model-visible nodes built and
    rewritten once per sealed transaction. Every fold follows the log from its end, so that
    appending one event unfolds one step. */
module Surface {
  import opened Events

  datatype ProjectError =
    | MissingTransactionId
    | InvalidSources
    | InvalidOrder
    | TransactionMismatch
    | GenerationRegressed
    | PairingBroken
    | NoVisibleSource

  datatype Result<+T> = Ok(value: T) | Err(error: ProjectError) {
    predicate IsFailure() { Err? }
    function PropagateFailure<U>(): Result<U> requires Err? { Err(error) }
    function Extract(): T requires Ok? { value }
  }

  // ---------------------------------------------------------------- transactions

  datatype Transaction = Transaction(
    generation: nat, sourceSeqs: seq<nat>, summary: string, fingerprint: string,
    start: bool, summarySeen: bool, replacementSeen: bool, replacementSeq: nat, end: bool)

  const NEW_TRANSACTION := Transaction(0, [], "", "", false, false, false, 0, false)

  /** The open and sealed transactions, and the order in which their ids first appeared. */
  datatype Ledger = Ledger(transactions: map<string, Transaction>, order: seq<string>)

  const EMPTY_LEDGER := Ledger(map[], [])

  function Lookup(l: Ledger, tx: string): Transaction {
    if tx in l.transactions then l.transactions[tx] else NEW_TRANSACTION
  }

  function Put(l: Ledger, tx: string, t: Transaction): Ledger {
    Ledger(l.transactions[tx := t], if tx in l.transactions then l.order else l.order + [tx])
  }

  predicate ValidSources(s: seq<nat>) {
    && |s| > 0
    && (forall i :: 0 <= i < |s| ==> s[i] > 0)
    && (forall i, j :: 0 <= i < j < |s| ==> s[i] != s[j])
  }

  function LedgerStep(l: Ledger, e: Event): Result<Ledger> {
    match e.payload
    case CompactionStart(generation, tx, sourceSeqs) =>
      if tx == "" then Err(MissingTransactionId)
      else if !ValidSources(sourceSeqs) then Err(InvalidSources)
      else
        var t := Lookup(l, tx);
        if t.start || t.summarySeen || t.replacementSeen || t.end then Err(InvalidOrder)
        else Ok(Put(l, tx, t.(generation := generation, sourceSeqs := sourceSeqs, start := true)))
    case CompactionSummary(generation, tx, sourceSeqs, summary, fingerprint) =>
      if tx == "" then Err(MissingTransactionId)
      else if !ValidSources(sourceSeqs) then Err(InvalidSources)
      else
        var t := Lookup(l, tx);
        if !t.start || t.summarySeen || t.replacementSeen || t.end then Err(InvalidOrder)
        else if t.generation != generation || t.sourceSeqs != sourceSeqs then Err(TransactionMismatch)
        else Ok(Put(l, tx, t.(summary := summary, fingerprint := fingerprint, summarySeen := true)))
    case SurfaceReplacement(generation, tx, sourceSeqs, summary, fingerprint) =>
      if tx == "" then Err(MissingTransactionId)
      else if !ValidSources(sourceSeqs) then Err(InvalidSources)
      else
        var t := Lookup(l, tx);
        if !t.start || !t.summarySeen || t.replacementSeen || t.end then Err(InvalidOrder)
        else if t.generation != generation || t.sourceSeqs != sourceSeqs
                || t.summary != summary || t.fingerprint != fingerprint then Err(TransactionMismatch)
        else Ok(Put(l, tx, t.(replacementSeen := true, replacementSeq := e.seqNo)))
    case CompactionEnd(generation, tx) =>
      if tx == "" then Err(MissingTransactionId)
      else
        var t := Lookup(l, tx);
        if !t.start || !t.summarySeen || !t.replacementSeen || t.end then Err(InvalidOrder)
        else if t.generation != generation then Err(TransactionMismatch)
        else Ok(Put(l, tx, t.(end := true)))
    case _ => Ok(l)
  }

  function FoldLedger(events: seq<Event>): Result<Ledger> {
    if |events| == 0 then Ok(EMPTY_LEDGER)
    else
      var l :- FoldLedger(events[..|events| - 1]);
      LedgerStep(l, events[|events| - 1])
  }

  // ---------------------------------------------------------------- sealed replacements

  /** A sealed transaction: what it replaces, by what, and where the replacement itself lives. */
  datatype Replacement = Replacement(generation: nat, sourceSeqs: seq<nat>, summary: string, fingerprint: string, seqNo: nat)

  function ToReplacement(t: Transaction): Replacement {
    Replacement(t.generation, t.sourceSeqs, t.summary, t.fingerprint, t.replacementSeq)
  }

  predicate IsSealed(t: Transaction) { t.start && t.summarySeen && t.replacementSeen && t.end }

  function SealedIn(l: Ledger, order: seq<string>): seq<Replacement> {
    if |order| == 0 then []
    else
      var rest := SealedIn(l, order[..|order| - 1]);
      var t := Lookup(l, order[|order| - 1]);
      if IsSealed(t) then rest + [ToReplacement(t)] else rest
  }

  function Sealed(l: Ledger): seq<Replacement> { SealedIn(l, l.order) }

  function SourceSet(s: seq<nat>): set<nat> { set x | x in s }

  /** The metadata accumulated by applying sealed transactions in order. */
  datatype Meta = Meta(generation: nat, shadowed: set<nat>, summary: string, fingerprint: string)

  const EMPTY_META := Meta(0, {}, "", "")

  function ApplyOne(m: Meta, r: Replacement): Result<Meta> {
    if 0 < r.generation < m.generation then Err(GenerationRegressed)
    else Ok(Meta(if r.generation > 0 then r.generation else m.generation,
                 m.shadowed + SourceSet(r.sourceSeqs),
                 r.summary,
                 if r.fingerprint != "" then r.fingerprint else m.fingerprint))
  }

  function ApplyAll(rs: seq<Replacement>): Result<Meta> {
    if |rs| == 0 then Ok(EMPTY_META)
    else
      var m :- ApplyAll(rs[..|rs| - 1]);
      ApplyOne(m, rs[|rs| - 1])
  }

  // ---------------------------------------------------------------- call/result pairing

  /** The last tool result recorded for a call. */
  function LastResult(events: seq<Event>, call: string): Option<nat> {
    if |events| == 0 then None
    else
      var e := events[|events| - 1];
      if e.payload.ToolResult? && e.call == call then Some(e.seqNo)
      else LastResult(events[..|events| - 1], call)
  }

  /** The last assistant message carrying a call. */
  function LastAssistant(events: seq<Event>, call: string): Option<nat> {
    if |events| == 0 then None
    else
      var e := events[|events| - 1];
      if e.payload.AssistantMessage? && call in e.payload.calls then Some(e.seqNo)
      else LastAssistant(events[..|events| - 1], call)
  }

  /** What a result answers: its recorded sources, or else the assistant message of its call. */
  function ResultSources(events: seq<Event>, e: Event): set<nat> {
    if |e.sources| > 0 then SourceSet(e.sources)
    else if e.call != "" && LastAssistant(events, e.call).Some? then {LastAssistant(events, e.call).value}
    else {}
  }

  /** A visible assistant message keeps the results of all its calls. */
  ghost predicate CallsKeepResults(events: seq<Event>, shadowed: set<nat>) {
    forall i, call {:trigger call in events[i].payload.calls} ::
      0 <= i < |events| && events[i].payload.AssistantMessage? && call in events[i].payload.calls && call != ""
      && events[i].seqNo !in shadowed && LastResult(events, call).Some?
      ==> LastResult(events, call).value !in shadowed
  }

  /** A visible tool result keeps everything it answers. */
  ghost predicate ResultsKeepSources(events: seq<Event>, shadowed: set<nat>) {
    forall i :: 0 <= i < |events| && events[i].payload.ToolResult? && events[i].seqNo !in shadowed
      ==> ResultSources(events, events[i]) !! shadowed
  }

  ghost predicate ValidPairing(events: seq<Event>, shadowed: set<nat>) {
    CallsKeepResults(events, shadowed) && ResultsKeepSources(events, shadowed)
  }

  // ---------------------------------------------------------------- surface nodes

  datatype Node = Node(seqNo: nat, messages: seq<Message>)

  function SummaryNode(r: Replacement): Node { Node(r.seqNo, [Message(User, [r.summary])]) }

  /** The newest skill catalog that is not shadowed; 0 when there is none. */
  function LatestCatalog(events: seq<Event>, shadowed: set<nat>): nat {
    if |events| == 0 then 0
    else
      var e := events[|events| - 1];
      var before := LatestCatalog(events[..|events| - 1], shadowed);
      if e.payload.SkillCatalog? && e.seqNo !in shadowed && e.seqNo > before then e.seqNo else before
  }

  /** Sealed replacements by the sequence of their user/message event. */
  function ByReplacementSeq(rs: seq<Replacement>): map<nat, Replacement> {
    if |rs| == 0 then map[]
    else
      var before := ByReplacementSeq(rs[..|rs| - 1]);
      var r := rs[|rs| - 1];
      if r.seqNo > 0 then before[r.seqNo := r] else before
  }

  /** A superseded catalog is skipped unless some replacement has to find it. */
  predicate SkippedCatalog(e: Event, latest: nat, replaced: set<nat>) {
    e.payload.SkillCatalog? && e.seqNo != latest && e.seqNo !in replaced
  }

  function NodesOf(e: Event, latest: nat, replaced: set<nat>, done: map<nat, Replacement>): seq<Node> {
    if !IsSurface(e.payload) || SkippedCatalog(e, latest, replaced) then []
    else if e.payload.SurfaceReplacement? then
      if e.seqNo in done then [Node(e.seqNo, [Message(User, [done[e.seqNo].summary])])] else []
    else [Node(e.seqNo, Render(e.payload))]
  }

  function BuildNodes(events: seq<Event>, latest: nat, replaced: set<nat>, done: map<nat, Replacement>): seq<Node> {
    if |events| == 0 then []
    else BuildNodes(events[..|events| - 1], latest, replaced, done)
         + NodesOf(events[|events| - 1], latest, replaced, done)
  }

  predicate AnySelected(nodes: seq<Node>, selected: set<nat>) {
    exists i :: 0 <= i < |nodes| && nodes[i].seqNo in selected
  }

  predicate AnyReplaced(nodes: seq<Node>, selected: set<nat>, own: nat) {
    exists i :: 0 <= i < |nodes| && nodes[i].seqNo != own && nodes[i].seqNo in selected
  }

  /** What one node contributes to a rewritten list, after the nodes `before` it. */
  function Rewritten(before: seq<Node>, n: Node, selected: set<nat>, summary: Node): seq<Node> {
    if n.seqNo == summary.seqNo then []
    else if n.seqNo !in selected then [n]
    else if AnyReplaced(before, selected, summary.seqNo) then []
    else [summary]
  }

  /** The list rewrite of one replacement: the first selected node becomes `summary`, the other
      selected nodes and the summary's earlier place disappear. */
  function Rewrite(nodes: seq<Node>, selected: set<nat>, summary: Node): seq<Node> {
    if |nodes| == 0 then []
    else
      var before := nodes[..|nodes| - 1];
      Rewrite(before, selected, summary) + Rewritten(before, nodes[|nodes| - 1], selected, summary)
  }

  function FoldOne(nodes: seq<Node>, r: Replacement): Result<seq<Node>> {
    if !AnySelected(nodes, SourceSet(r.sourceSeqs)) then Err(NoVisibleSource)
    else Ok(Rewrite(nodes, SourceSet(r.sourceSeqs), SummaryNode(r)))
  }

  function FoldAll(nodes: seq<Node>, rs: seq<Replacement>): Result<seq<Node>> {
    if |rs| == 0 then Ok(nodes)
    else
      var before :- FoldAll(nodes, rs[..|rs| - 1]);
      FoldOne(before, rs[|rs| - 1])
  }

  /** The nodes whose sequence is not in `hidden`. */
  function Without(nodes: seq<Node>, hidden: set<nat>): seq<Node> {
    if |nodes| == 0 then []
    else
      var n := nodes[|nodes| - 1];
      Without(nodes[..|nodes| - 1], hidden) + (if n.seqNo != 0 && n.seqNo in hidden then [] else [n])
  }

  function Flatten(nodes: seq<Node>): seq<Message> {
    if |nodes| == 0 then []
    else Flatten(nodes[..|nodes| - 1]) + nodes[|nodes| - 1].messages
  }

  // ---------------------------------------------------------------- projection

  datatype Projection = Projection(generation: nat, shadowed: set<nat>, summary: string, fingerprint: string, nodes: seq<Node>)

  ghost function Project(events: seq<Event>): Result<Projection> {
    var ledger :- FoldLedger(events);
    var rs := Sealed(ledger);
    var meta :- ApplyAll(rs);
    if !ValidPairing(events, meta.shadowed) then Err(PairingBroken)
    else
      var raw := BuildNodes(events, LatestCatalog(events, meta.shadowed), meta.shadowed, ByReplacementSeq(rs));
      var folded :- FoldAll(raw, rs);
      Ok(Projection(meta.generation, meta.shadowed, meta.summary, meta.fingerprint, Without(folded, meta.shadowed)))
  }

  /** The messages a model request is built from. */
  ghost function Messages(events: seq<Event>): Result<seq<Message>> {
    var p :- Project(events);
    Ok(Flatten(p.nodes))
  }
}
