/** The durable tool-call protocol as a state machine (agent/loop.go:542-732, agent/loop.go:880-994,
    agent/loop.go:1611-1671): workers claim leases, recover, refresh their caches, write barriers,
    execute, and write outcomes; any of them can lose its lease or crash between any two steps.

    Only log writes are fenced. An execution is not: a worker that lost its lease may still run a
    call whose barrier it wrote. A write carries the next id of its run's emitter, and an append whose
    id is already on the log changes nothing and reports success, so the worker goes on as if it had
    written. A fresh run numbers its ids from one; every resume of a run numbers them from the length of
    the worker's cache (agent/loop.go:473, 490, 659, 718, 968), and an id is also drawn, without an event, for each
    call the provider returned without one (agent/loop.go:2637-2639). Approval records are written past
    the loop (agent/agent.go:980-1119): a request under the asking worker's lease, before or after the
    body, a decision by anyone at any time, even after the call's result; no cache learns of either until
    it is refreshed. The machine allows more than the source does (a lease can be taken at any time, turn
    ends are not checked), so what holds of all its runs holds of the source's. */
module Lifecycle {
  import opened Events
  import opened Store
  import opened Recovery
  import opened Deferral

  // ---------------------------------------------------------------- state

  /** Where one call stands in the worker that handles it. A barrier whose write changed nothing is
      `None`. */
  datatype Phase =
    | Queued                                      // may still be dispatched
    | Marked(barrier: Option<nat>)                // after tool/dispatched, before tool/running
    | Live(barrier: Option<nat>, resumed: bool)   // the body may run, may have run, or was short-circuited
    | Delivered                                   // a materialized result, nothing to run

  /** Draws event ids for one run; `n` ids have been drawn, or skipped by a resume. */
  datatype Emitter = Emitter(run: string, n: nat)
  {
    function NextId(): EventId { EmitterId(run, n + 1) }
  }

  /** A worker's memory: whether it recovered in this command, its cached log, its open calls, and
      the emitter of the run it works on. */
  datatype Worker = Worker(recovered: bool, cache: Option<seq<Event>>, jobs: map<string, Phase>, em: Option<Emitter>)

  /** One execution: the call, the log index of the barrier it ran under, the log length then. */
  datatype Exec = Exec(call: string, barrier: Option<nat>, at: nat)

  /** A body that may be executed although its barrier was never written. */
  datatype Bare = Bare(fence: nat, call: string)

  /** `armed` maps each barrier that may still be executed to the fence of its writer. */
  datatype Sys = Sys(log: seq<Event>, fence: nat, workers: map<nat, Worker>, armed: map<nat, nat>, bare: set<Bare>,
                     execs: seq<Exec>)

  const INIT := Sys([], 0, map[], map[], {}, [])

  datatype Step =
    | Claim
    | Recover(f: nat)
    | Refresh(f: nat)
    | StartRun(f: nat, run: string)
    | Continue(f: nat, run: string)
    | Draw(f: nat)
    | Admit(f: nat, e: Event)
    | Approve(f: nat, call: string, run: string)
    | Dispatch(f: nat, e: Event)
    | Running(f: nat, e: Event)
    | ResumeCall(f: nat, key: string, e: Event)
    | Materialize(f: nat, key: string, e: Event)
    | Redeliver(f: nat, key: string, call: string)
    | Execute(barrier: nat)
    | ExecuteBare(f: nat, call: string)
    | Settle(f: nat, e: Event)
    | Defer(f: nat, e: Event)
    | Ask(f: nat, e: Event)
    | Answer(e: Event)
    | Note(f: nat, e: Event)
    | Other(f: nat, e: Event)
    | Past(e: Event)
    | Drop(f: nat, call: string)
    | Crash(f: nat)

  // ---------------------------------------------------------------- writing

  /** Events that move a call through its lifecycle. */
  predicate IsLifecycle(p: Payload) {
    || p.ToolCall? || p.ToolDispatched? || p.ToolRunning? || p.ToolDeferred? || p.ToolResumeStarted?
    || p.ToolResult? || p.ApprovalRequested? || p.ApprovalResolved?
  }

  function Write(log: seq<Event>, sid: string, e: Event): seq<Event> { log + [Stored(e, sid, |log| + 1)] }

  /** The committed append of one named event. */
  function Commit(log: seq<Event>, sid: string, e: Event): seq<Event> { if IsNew(log, e) then Write(log, sid, e) else log }

  /** An event as an emitter writes it. */
  function Named(em: Emitter, e: Event): Event { e.(id := em.NextId(), run := em.run) }

  /** The emitter's next id is on the log already: its next write changes nothing. */
  predicate Swallows(log: seq<Event>, em: Emitter) { em.NextId() in Ids(log) }

  /** Where a barrier that is written now stands. */
  function BarrierAt(log: seq<Event>, em: Emitter): Option<nat> { if Swallows(log, em) then None else Some(|log|) }

  /** The append and the cache fold of one numbered event: the cache learns of a new event under the
      sequence the store gave it, and of nothing that others wrote before it; an event the log held is
      one it has. */
  function Wrote(s: Sys, sid: string, f: nat, em: Emitter, e: Event, jobs: map<string, Phase>): Sys
    requires f in s.workers
  {
    var w, d := s.workers[f], Named(em, e);
    var cache := if w.cache.Some? && !Swallows(s.log, em) then Some(w.cache.value + [Stored(d, sid, |s.log| + 1)]) else w.cache;
    s.(log := Commit(s.log, sid, d), workers := s.workers[f := w.(cache := cache, jobs := jobs, em := Some(em.(n := em.n + 1)))])
  }

  /** The holder of the current lease writes one event about one call. */
  predicate MayWrite(s: Sys, f: nat, e: Event) {
    f in s.workers && f == s.fence && (IsLifecycle(e.payload) ==> e.call != "")
  }

  predicate HasEmitter(s: Sys, f: nat) { f in s.workers && s.workers[f].em.Some? }

  /** Ids that no emitter and no recovery draws: of inbox, compaction and status events. */
  predicate ForeignId(id: EventId) { id.NoId? || id.Emitted? || id.CompactionId? }

  /** An approval record carries the id its call gives it, so it is written at most once. */
  predicate MayRecord(s: Sys, e: Event, resolved: bool) {
    e.call != "" && e.id == ApprovalId(e.call, resolved) && e.id !in Ids(s.log)
  }

  function Job(s: Sys, f: nat, call: string): Option<Phase> {
    if f in s.workers && call in s.workers[f].jobs then Some(s.workers[f].jobs[call]) else None
  }

  // ---------------------------------------------------------------- guards

  predicate HasCall(log: seq<Event>, call: string) {
    exists i :: 0 <= i < |log| && log[i].payload.ToolCall? && log[i].call == call
  }

  /** The run of the call's own record; a record without one leaves the run to the request. */
  predicate RunOfCall(log: seq<Event>, call: string, run: string) {
    exists i :: 0 <= i < |log| && log[i].payload.ToolCall? && log[i].call == call && (log[i].run == run || log[i].run == "")
  }

  predicate HasResult(log: seq<Event>, call: string) {
    exists i :: 0 <= i < |log| && log[i].payload.ToolResult? && log[i].call == call
  }

  predicate HasDispatch(log: seq<Event>, call: string) {
    exists i :: 0 <= i < |log| && (log[i].payload.ToolDispatched? || log[i].payload.ToolRunning?) && log[i].call == call
  }

  /** What `ResumeApprovedTool` checks of its cached log before it runs an approved call. It looks
      for dispatch barriers only, not for resume barriers. */
  predicate ApprovalGuard(log: seq<Event>, call: string) {
    call != "" && HasCall(log, call) && !HasDispatch(log, call) && !HasResult(log, call)
  }

  /** What a resume checks of the cached log, for a fresh execution or for a stored result. */
  predicate ResumeGuard(log: seq<Event>, call: string, key: string) {
    call != "" && key != "" && Resumable(RecordOf(log, call, key))
  }

  predicate RedeliverGuard(log: seq<Event>, call: string, key: string) {
    var r := RecordOf(log, call, key);
    call != "" && key != "" && r.deferred.Some? && !r.resultExists && r.resumeStarted && r.resumeMaterialized
  }

  /** Inside a resume batch: recovered and refreshed in this command, and no other call open. */
  predicate InResume(s: Sys, f: nat) {
    f in s.workers && s.workers[f].recovered && s.workers[f].cache.Some? && s.workers[f].jobs == map[]
  }

  /** The emitter of a resume: the run of the deferral, numbered from the length of the cache. */
  function ResumeEmitter(cache: seq<Event>, call: string, key: string): Emitter
    requires ResumeGuard(cache, call, key) || RedeliverGuard(cache, call, key)
  {
    Emitter(RecordOf(cache, call, key).deferred.value.run, |cache|)
  }

  /** The emitter a step writes with: its worker's own, or the one a resume starts. */
  function EmitterOf(s: Sys, step: Step): Option<Emitter> {
    match step
    case ResumeCall(f, key, e) => Resuming(s, f, e.call, key)
    case Materialize(f, key, e) => Resuming(s, f, e.call, key)
    case Admit(f, _) => OwnEmitter(s, f)
    case Dispatch(f, _) => OwnEmitter(s, f)
    case Running(f, _) => OwnEmitter(s, f)
    case Settle(f, _) => OwnEmitter(s, f)
    case Defer(f, _) => OwnEmitter(s, f)
    case Note(f, _) => OwnEmitter(s, f)
    case _ => None
  }

  function OwnEmitter(s: Sys, f: nat): Option<Emitter> { if f in s.workers then s.workers[f].em else None }

  function Resuming(s: Sys, f: nat, call: string, key: string): Option<Emitter> {
    if f in s.workers && s.workers[f].cache.Some? && ResumeGuard(s.workers[f].cache.value, call, key)
    then Some(ResumeEmitter(s.workers[f].cache.value, call, key)) else None
  }

  predicate Enabled(s: Sys, sid: string, step: Step) {
    match step
    case Claim => true
    case Recover(f) => f in s.workers && f == s.fence && s.workers[f].jobs == map[]
    case Refresh(f) => f in s.workers
    case StartRun(f, run) => f in s.workers && s.workers[f].jobs == map[] && forall id :: id in Ids(s.log) && id.EmitterId? ==> id.run != run
    case Continue(f, _) => f in s.workers && s.workers[f].jobs == map[] && s.workers[f].cache.Some?
    case Draw(f) => HasEmitter(s, f)
    case Admit(f, e) =>
      && MayWrite(s, f, e) && HasEmitter(s, f) && e.payload.ToolCall? && Job(s, f, e.call).None?
      && (forall i :: 0 <= i < |s.log| ==> s.log[i].call != e.call)
    case Approve(f, call, run) =>
      && f in s.workers && s.workers[f].jobs == map[] && s.workers[f].cache.Some?
      && ApprovalGuard(s.workers[f].cache.value, call) && RunOfCall(s.workers[f].cache.value, call, run)
    case Dispatch(f, e) => MayWrite(s, f, e) && HasEmitter(s, f) && e.payload.ToolDispatched? && Job(s, f, e.call) == Some(Queued)
    case Running(f, e) =>
      MayWrite(s, f, e) && HasEmitter(s, f) && e.payload.ToolRunning? && Job(s, f, e.call).Some? && Job(s, f, e.call).value.Marked?
    case ResumeCall(f, key, e) =>
      && MayWrite(s, f, e) && e.payload == ToolResumeStarted(false) && InResume(s, f)
      && ResumeGuard(s.workers[f].cache.value, e.call, key)
    case Materialize(f, key, e) =>
      && MayWrite(s, f, e) && e.payload == ToolResumeStarted(true) && InResume(s, f)
      && ResumeGuard(s.workers[f].cache.value, e.call, key)
    case Redeliver(f, key, call) => InResume(s, f) && RedeliverGuard(s.workers[f].cache.value, call, key)
    case Execute(barrier) => barrier in s.armed && s.armed[barrier] in s.workers && barrier < |s.log|
    case ExecuteBare(f, call) => Bare(f, call) in s.bare && f in s.workers
    case Settle(f, e) => MayWrite(s, f, e) && HasEmitter(s, f) && e.payload.ToolResult? && Job(s, f, e.call).Some?
    case Defer(f, e) =>
      MayWrite(s, f, e) && HasEmitter(s, f) && e.payload.ToolDeferred? && e.payload.resumeKey != "" && Job(s, f, e.call).Some?
    case Ask(f, e) =>
      f in s.workers && f == s.fence && e.payload.ApprovalRequested? && MayRecord(s, e, false) && MayAsk(s, f, e.call)
    case Answer(e) => e.payload.ApprovalResolved? && MayRecord(s, e, true)
    case Note(f, e) => MayWrite(s, f, e) && HasEmitter(s, f) && !IsLifecycle(e.payload)
    case Other(f, e) => MayWrite(s, f, e) && !IsLifecycle(e.payload) && ForeignId(e.id) && IsNew(s.log, e)
    case Past(e) => !IsLifecycle(e.payload) && ForeignId(e.id) && IsNew(s.log, e)
    case Drop(f, call) => Job(s, f, call).Some?
    case Crash(f) => f in s.workers
  }

  /** A pre-policy asks for a call that is not dispatched or is being resumed, a post-policy after
      its body has run. */
  predicate MayAsk(s: Sys, f: nat, call: string) {
    var job := Job(s, f, call);
    job.Some? && (job.value.Queued? || job.value.Live?)
  }

  // ---------------------------------------------------------------- steps

  /** The body of a call may start: under its barrier, or without one. */
  function Arm(s: Sys, f: nat, call: string, barrier: Option<nat>): Sys {
    if barrier.Some? then s.(armed := s.armed[barrier.value := f]) else s.(bare := s.bare + {Bare(f, call)})
  }

  /** The outcome of a call is written, or its command gives up: its body can no longer start. */
  function Disarm(s: Sys, f: nat, call: string, phase: Phase): Sys {
    s.(armed := if phase.Live? && phase.barrier.Some? then s.armed - {phase.barrier.value} else s.armed, bare := s.bare - {Bare(f, call)})
  }

  function Jobs(s: Sys, f: nat): map<string, Phase>
    requires f in s.workers
  {
    s.workers[f].jobs
  }

  function WithWorker(s: Sys, f: nat, w: Worker): Sys { s.(workers := s.workers[f := w]) }

  /** Calls of one batch are dispatched concurrently, and the cache may miss some of their records;
      a guard only reads a cache refreshed since. */
  function Forgets(s: Sys, f: nat): Sys
    requires f in s.workers
  {
    WithWorker(s, f, s.workers[f].(cache := None))
  }

  /** A foreign event in the log and in its writer's cache. */
  function Noted(s: Sys, sid: string, f: nat, e: Event): Sys
    requires f in s.workers
  {
    var w := s.workers[f];
    var cache := if w.cache.Some? then Some(w.cache.value + [Stored(e, sid, |s.log| + 1)]) else None;
    s.(log := Write(s.log, sid, e), workers := s.workers[f := w.(cache := cache)])
  }

  function Next(s: Sys, sid: string, step: Step): Sys
    requires Enabled(s, sid, step)
  {
    match step
    case Claim =>
      s.(fence := s.fence + 1, workers := s.workers[s.fence + 1 := Worker(false, None, map[], None)])
    case Recover(f) =>
      s.(log := Recovered(s.log, sid), workers := s.workers[f := Worker(true, None, map[], None)])
    case Refresh(f) => WithWorker(s, f, s.workers[f].(cache := Some(s.log)))
    case StartRun(f, run) => WithWorker(s, f, s.workers[f].(em := Some(Emitter(run, 0))))
    case Continue(f, run) => WithWorker(s, f, s.workers[f].(em := Some(Emitter(run, |s.workers[f].cache.value|))))
    case Draw(f) => WithWorker(s, f, s.workers[f].(em := Some(s.workers[f].em.value.(n := s.workers[f].em.value.n + 1))))
    case Admit(f, e) =>
      Wrote(WithWorker(s, f, s.workers[f].(recovered := false)), sid, f, s.workers[f].em.value, e, Jobs(s, f)[e.call := Queued])
    case Approve(f, call, run) =>
      WithWorker(s, f, s.workers[f].(recovered := false, jobs := map[call := Queued],
                                     em := Some(Emitter(run, |s.workers[f].cache.value|))))
    case Dispatch(f, e) =>
      var em := s.workers[f].em.value;
      Forgets(Wrote(s, sid, f, em, e, Jobs(s, f)[e.call := Marked(BarrierAt(s.log, em))]), f)
    case Running(f, e) =>
      var barrier := Jobs(s, f)[e.call].barrier;
      Arm(Forgets(Wrote(s, sid, f, s.workers[f].em.value, e, Jobs(s, f)[e.call := Live(barrier, false)]), f), f, e.call, barrier)
    case ResumeCall(f, key, e) =>
      var em := ResumeEmitter(s.workers[f].cache.value, e.call, key);
      var barrier := BarrierAt(s.log, em);
      Arm(Wrote(s, sid, f, em, e, Jobs(s, f)[e.call := Live(barrier, true)]), f, e.call, barrier)
    case Materialize(f, key, e) =>
      Wrote(s, sid, f, ResumeEmitter(s.workers[f].cache.value, e.call, key), e, Jobs(s, f)[e.call := Delivered])
    case Redeliver(f, key, call) =>
      WithWorker(s, f, s.workers[f].(jobs := map[call := Delivered], em := Some(ResumeEmitter(s.workers[f].cache.value, call, key))))
    case Execute(barrier) =>
      s.(armed := s.armed - {barrier}, execs := s.execs + [Exec(s.log[barrier].call, Some(barrier), |s.log|)])
    case ExecuteBare(f, call) =>
      s.(bare := s.bare - {Bare(f, call)}, execs := s.execs + [Exec(call, None, |s.log|)])
    case Settle(f, e) =>
      Disarm(Wrote(s, sid, f, s.workers[f].em.value, e, Jobs(s, f) - {e.call}), f, e.call, Jobs(s, f)[e.call])
    case Defer(f, e) =>
      Disarm(Wrote(s, sid, f, s.workers[f].em.value, e, Jobs(s, f) - {e.call}), f, e.call, Jobs(s, f)[e.call])
    case Ask(_, e) => s.(log := Write(s.log, sid, e))
    case Answer(e) => s.(log := Write(s.log, sid, e))
    case Note(f, e) => Wrote(s, sid, f, s.workers[f].em.value, e, Jobs(s, f))
    case Other(f, e) => Noted(s, sid, f, e)
    case Past(e) => s.(log := Write(s.log, sid, e))
    case Drop(f, call) =>
      Disarm(WithWorker(s, f, s.workers[f].(recovered := false, jobs := Jobs(s, f) - {call})), f, call, Jobs(s, f)[call])
    case Crash(f) => s.(workers := s.workers - {f})
  }

  /** A run: every step that is enabled when its turn comes is taken, the others are refused. */
  function Take(s: Sys, sid: string, step: Step): Sys { if Enabled(s, sid, step) then Next(s, sid, step) else s }

  function Run(sid: string, steps: seq<Step>): Sys {
    if |steps| == 0 then INIT else Take(Run(sid, steps[..|steps| - 1]), sid, steps[|steps| - 1])
  }

  /** A write of the protocol is the store's fenced committed append of one event: it succeeds under a
      lease that holds, whether or not the log changes. */
  lemma WriteIsFencedCommit(st: State, lease: Lease, em: Emitter, e: Event, token: EventId, now: nat)
    requires Holds(st, lease, now) && ValidEvent(e) && (e.session == "" || e.session == lease.session)
    ensures var (after, r) := FencedCommitted(st, lease, [Named(em, e)], [token], now);
            && r.Ok? && |r.value| == 1 && r.value[0].id == em.NextId()
            && after.Log(lease.session) == Commit(st.Log(lease.session), lease.session, Named(em, e))
            && (Swallows(st.Log(lease.session), em) ==> after == st && r.value[0] in st.Log(lease.session))
  {
    var log, d := st.Log(lease.session), Named(em, e);
    assert [d][..0] == [] && [d][1..] == [] && [token][..0] == [];
    assert BatchError(lease.session, [d]) == None;
    assert Committed(log, lease.session, [], []) == Store.Commit(log, []);
    FoundExactly(log, d.id);
  }

  lemma {:induction false} FoundExactly(log: seq<Event>, id: EventId)
    requires id != NoId
    ensures Find(log, id).Some? <==> id in Ids(log)
    ensures Find(log, id).Some? ==> Find(log, id).value in log && Find(log, id).value.id == id
  {
    if |log| > 0 {
      var before := log[..|log| - 1];
      assert log == before + [log[|log| - 1]];
      FoundExactly(before, id);
    }
  }

  // ---------------------------------------------------------------- what the log says of a call

  /** Everything the protocol's guarantees say about one call, read off the log alone. */
  datatype View = View(
    dispatches: nat,   // tool/dispatched barriers
    resumes: nat,      // resume barriers of fresh executions
    deferrals: nat,
    results: nat,
    waiting: bool,     // deferred, and not resumed since
    open: bool,        // a barrier without a deferral after it
    split: bool,       // some barrier was written while another was open
    late: bool)        // some lifecycle event other than an approval record followed a result

  const NO_VIEW := View(0, 0, 0, 0, false, false, false, false)

  function NextView(v: View, e: Event, call: string): View {
    if e.call != call then v
    else match e.payload
      case ToolDispatched =>
        v.(dispatches := v.dispatches + 1, split := v.split || v.open, open := true, late := v.late || v.results > 0)
      case ToolRunning => v.(late := v.late || v.results > 0)
      case ToolResumeStarted(materialized) =>
        if materialized then v.(waiting := false, late := v.late || v.results > 0)
        else v.(resumes := v.resumes + 1, waiting := false, split := v.split || v.open, open := true, late := v.late || v.results > 0)
      case ToolDeferred(_) => v.(deferrals := v.deferrals + 1, waiting := true, open := false, late := v.late || v.results > 0)
      case ToolResult(_, _, _, _) => v.(results := v.results + 1, late := v.late || v.results > 0)
      case _ => v
  }

  function ViewOf(log: seq<Event>, call: string): View {
    if |log| == 0 then NO_VIEW else NextView(ViewOf(log[..|log| - 1], call), log[|log| - 1], call)
  }

  // ---------------------------------------------------------------- what a cache may miss

  predicate IsApproval(p: Payload) { p.ApprovalRequested? || p.ApprovalResolved? }

  /** What the guards read of a log: the lifecycle records of its calls without the approvals. */
  predicate IsRecord(p: Payload) { IsLifecycle(p) && !IsApproval(p) }

  function Records(log: seq<Event>): seq<Event> {
    if |log| == 0 then []
    else Records(log[..|log| - 1]) + (if IsRecord(log[|log| - 1].payload) then [log[|log| - 1]] else [])
  }

  lemma RecordsSnoc(log: seq<Event>, e: Event)
    ensures Records(log + [e]) == Records(log) + (if IsRecord(e.payload) then [e] else [])
  {
    assert (log + [e])[..|log|] == log;
  }

  lemma SnocFolds(log: seq<Event>, e: Event, call: string, key: string)
    ensures ViewOf(log + [e], call) == NextView(ViewOf(log, call), e, call)
    ensures RecordOf(log + [e], call, key) == NextRecord(RecordOf(log, call, key), e, call, key)
  {
    assert (log + [e])[..|log|] == log;
  }

  lemma {:induction false} FoldsReadRecords(log: seq<Event>, call: string, key: string)
    ensures ViewOf(Records(log), call) == ViewOf(log, call)
    ensures RecordOf(Records(log), call, key) == RecordOf(log, call, key)
  {
    if |log| > 0 {
      var before, e := log[..|log| - 1], log[|log| - 1];
      FoldsReadRecords(before, call, key);
      if IsRecord(e.payload) {
        SnocFolds(Records(before), e, call, key);
      } else {
        assert Records(before) + [] == Records(before);
      }
    }
  }

  /** A cache that misses no record answers every guard as the log does. */
  lemma SameRecords(cache: seq<Event>, log: seq<Event>, call: string, key: string)
    requires Records(cache) == Records(log)
    ensures ViewOf(cache, call) == ViewOf(log, call) && RecordOf(cache, call, key) == RecordOf(log, call, key)
  {
    FoldsReadRecords(cache, call, key);
    FoldsReadRecords(log, call, key);
  }
}
