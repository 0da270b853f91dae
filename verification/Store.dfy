/** The in-memory fenced store (session/store.go, session/fenced.go): what each operation does to
    the stored maps, as functions over a snapshot of them. The clock and the random tokens are
    arguments. */
module Store {
  import opened Events

  datatype Lease = Lease(session: string, owner: string, token: string, fence: nat, expiresAt: nat)

  datatype StoreError = LeaseLost | LeaseHeld | InvalidEvent | WrongSession

  datatype Result<+T> = Ok(value: T) | Err(error: StoreError)

  /** The store's mutable maps. A missing session reads as an empty log with sequence 0. */
  datatype State = State(
    next: map<string, nat>,
    events: map<string, seq<Event>>,
    leases: map<string, Lease>,
    fences: map<string, nat>)
  {
    function Log(sid: string): seq<Event> { if sid in events then events[sid] else [] }
    function Next(sid: string): nat { if sid in next then next[sid] else 0 }
    function Fence(sid: string): nat { if sid in fences then fences[sid] else 0 }
  }

  const EMPTY := State(map[], map[], map[], map[])

  /** Tool and approval events must name their call. */
  predicate NeedsCall(p: Payload) {
    || p.ToolCall? || p.ToolAdmitted? || p.ToolDispatched? || p.ToolRunning? || p.ToolDeferred?
    || p.ToolResumeStarted? || p.ToolResult? || p.ApprovalRequested? || p.ApprovalResolved?
  }

  predicate ValidEvent(e: Event) { NeedsCall(e.payload) ==> e.call != "" }

  predicate Acceptable(e: Event, sid: string) { ValidEvent(e) && (e.session == "" || e.session == sid) }

  /** The first reason a batch is refused; checked before anything is written. */
  function BatchError(sid: string, batch: seq<Event>): Option<StoreError> {
    if |batch| == 0 then None
    else if !ValidEvent(batch[0]) then Some(InvalidEvent)
    else if !Acceptable(batch[0], sid) then Some(WrongSession)
    else BatchError(sid, batch[1..])
  }

  function Stored(e: Event, sid: string, seqNo: nat): Event { e.(session := sid, seqNo := seqNo) }

  function Ids(log: seq<Event>): set<EventId> { set e | e in log && e.id != NoId :: e.id }

  /** Fenced appends skip an event whose id the log already holds. */
  predicate IsNew(log: seq<Event>, e: Event) { e.id == NoId || e.id !in Ids(log) }

  /** The last stored event with an id, as the source's id table ends up holding. */
  function Find(log: seq<Event>, id: EventId): Option<Event> {
    if |log| == 0 then None
    else if log[|log| - 1].id == id then Some(log[|log| - 1])
    else Find(log[..|log| - 1], id)
  }

  // ---------------------------------------------------------------- the three ways to append

  /** Plain append: every event is stored under the next sequence. */
  function Appended(log: seq<Event>, sid: string, batch: seq<Event>): seq<Event> {
    if |batch| == 0 then log
    else
      var before := Appended(log, sid, batch[..|batch| - 1]);
      before + [Stored(batch[|batch| - 1], sid, |before| + 1)]
  }

  /** Fenced append: events whose id the log already held are skipped; ids inside the batch are
      not compared with each other. */
  function AppendedNew(log: seq<Event>, sid: string, batch: seq<Event>): seq<Event> {
    if |batch| == 0 then log
    else
      var before := AppendedNew(log, sid, batch[..|batch| - 1]);
      var e := batch[|batch| - 1];
      if !IsNew(log, e) then before else before + [Stored(e, sid, |before| + 1)]
  }

  function WithId(e: Event, token: EventId): Event { if e.id == NoId then e.(id := token) else e }

  datatype Commit = Commit(log: seq<Event>, committed: seq<Event>)

  /** Committed append: returns the canonical event of every batch position, storing only those
      whose id is new to the log, including the part of the batch already stored. */
  function Committed(log: seq<Event>, sid: string, batch: seq<Event>, tokens: seq<EventId>): Commit
    requires |tokens| == |batch|
  {
    if |batch| == 0 then Commit(log, [])
    else
      var before := Committed(log, sid, batch[..|batch| - 1], tokens[..|batch| - 1]);
      var e := WithId(batch[|batch| - 1], tokens[|batch| - 1]);
      var prior := Find(before.log, e.id);
      if prior.Some? then Commit(before.log, before.committed + [prior.value])
      else
        var stored := Stored(e, sid, |before.log| + 1);
        Commit(before.log + [stored], before.committed + [stored])
  }

  // ---------------------------------------------------------------- operations

  function SetLog(st: State, sid: string, log: seq<Event>): State {
    if log == st.Log(sid) then st
    else st.(events := st.events[sid := log], next := st.next[sid := |log|])
  }

  /** A lease admits writes while it is the session's current, unexpired one. */
  predicate Holds(st: State, lease: Lease, now: nat) {
    && lease.session in st.leases
    && st.Fence(lease.session) == lease.fence
    && st.leases[lease.session].token == lease.token
    && st.leases[lease.session].fence == lease.fence
    && now < st.leases[lease.session].expiresAt
  }

  const DEFAULT_TTL := 30

  function Claim(st: State, sid: string, owner: string, ttl: int, token: string, now: nat): (State, Result<Lease>) {
    var lifetime: nat := if ttl <= 0 then DEFAULT_TTL else ttl;
    if sid in st.leases && now < st.leases[sid].expiresAt then (st, Err(LeaseHeld))
    else
      var lease := Lease(sid, owner, token, st.Fence(sid) + 1, now + lifetime);
      (st.(fences := st.fences[sid := lease.fence], leases := st.leases[sid := lease]), Ok(lease))
  }

  function Renew(st: State, lease: Lease, now: nat): (State, Result<Lease>) {
    if lease.session !in st.leases || st.leases[lease.session].token != lease.token
       || st.leases[lease.session].fence != lease.fence || now >= st.leases[lease.session].expiresAt
    then (st, Err(LeaseLost))
    else
      var renewed := st.leases[lease.session].(expiresAt := now + DEFAULT_TTL);
      (st.(leases := st.leases[lease.session := renewed]), Ok(renewed))
  }

  function Release(st: State, lease: Lease): State {
    if lease.session in st.leases && st.leases[lease.session].token == lease.token
    then st.(leases := st.leases - {lease.session})
    else st
  }

  function AppendPlain(st: State, sid: string, batch: seq<Event>): (State, Result<nat>) {
    if BatchError(sid, batch).Some? then (st, Err(BatchError(sid, batch).value))
    else
      var log := Appended(st.Log(sid), sid, batch);
      (SetLog(st, sid, log), Ok(|log|))
  }

  function PlainCommitted(st: State, sid: string, batch: seq<Event>, tokens: seq<EventId>): (State, Result<seq<Event>>)
    requires |tokens| == |batch|
  {
    if BatchError(sid, batch).Some? then (st, Err(BatchError(sid, batch).value))
    else
      var c := Committed(st.Log(sid), sid, batch, tokens);
      (SetLog(st, sid, c.log), Ok(c.committed))
  }

  function FencedAppend(st: State, lease: Lease, batch: seq<Event>, now: nat): (State, Result<nat>) {
    if BatchError(lease.session, batch).Some? then (st, Err(BatchError(lease.session, batch).value))
    else if !Holds(st, lease, now) then (st, Err(LeaseLost))
    else
      var log := AppendedNew(st.Log(lease.session), lease.session, batch);
      (SetLog(st, lease.session, log), Ok(|log|))
  }

  function FencedCommitted(st: State, lease: Lease, batch: seq<Event>, tokens: seq<EventId>, now: nat): (State, Result<seq<Event>>)
    requires |tokens| == |batch|
  {
    if BatchError(lease.session, batch).Some? then (st, Err(BatchError(lease.session, batch).value))
    else if !Holds(st, lease, now) then (st, Err(LeaseLost))
    else
      var c := Committed(st.Log(lease.session), lease.session, batch, tokens);
      (SetLog(st, lease.session, c.log), Ok(c.committed))
  }

  // ---------------------------------------------------------------- the store's invariant

  /** Sequences are exactly 1..n and every stored event belongs to the session. */
  ghost predicate Contiguous(log: seq<Event>, sid: string) {
    forall i :: 0 <= i < |log| ==> log[i].seqNo == i + 1 && log[i].session == sid
  }

  ghost predicate Inv(st: State) {
    && (forall sid :: Contiguous(st.Log(sid), sid))
    && (forall sid :: st.Next(sid) == |st.Log(sid)|)
    && (forall sid :: sid in st.leases ==> st.leases[sid].session == sid && st.leases[sid].fence == st.Fence(sid))
  }

  lemma {:induction false} AppendedContiguous(log: seq<Event>, sid: string, batch: seq<Event>)
    requires Contiguous(log, sid)
    ensures Contiguous(Appended(log, sid, batch), sid) && log <= Appended(log, sid, batch)
    ensures |Appended(log, sid, batch)| == |log| + |batch|
  {
    if |batch| > 0 {
      AppendedContiguous(log, sid, batch[..|batch| - 1]);
    }
  }

  lemma {:induction false} AppendedNewContiguous(log: seq<Event>, sid: string, batch: seq<Event>)
    requires Contiguous(log, sid)
    ensures Contiguous(AppendedNew(log, sid, batch), sid) && log <= AppendedNew(log, sid, batch)
  {
    if |batch| > 0 {
      AppendedNewContiguous(log, sid, batch[..|batch| - 1]);
    }
  }

  lemma {:induction false} CommittedContiguous(log: seq<Event>, sid: string, batch: seq<Event>, tokens: seq<EventId>)
    requires Contiguous(log, sid) && |tokens| == |batch|
    ensures Contiguous(Committed(log, sid, batch, tokens).log, sid) && log <= Committed(log, sid, batch, tokens).log
    ensures |Committed(log, sid, batch, tokens).committed| == |batch|
  {
    if |batch| > 0 {
      CommittedContiguous(log, sid, batch[..|batch| - 1], tokens[..|batch| - 1]);
    }
  }
}
