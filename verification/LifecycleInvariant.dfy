/** What every step of the tool-call protocol keeps. */
module LifecycleInvariant {
  import opened Events
  import opened Store
  import opened Recovery
  import opened RecoveryTheorems
  import opened Deferral
  import opened Lifecycle

  // ---------------------------------------------------------------- the invariant

  /** One call on the log: dispatched at most once, resumed at most once per deferral, settled at
      most once and then left alone but for approval records. */
  predicate Sound(v: View, st: CallState) {
    && v.dispatches <= 1
    && v.resumes + (if v.waiting then 1 else 0) <= v.deferrals
    && v.results <= 1 && !v.late
    && (v.results > 0 ==> st == CallResult)
  }

  ghost predicate CallOk(log: seq<Event>, call: string) {
    && Sound(ViewOf(log, call), StateOf(log, call))
    && (RecoverUnknown(call) in Ids(log) ==> ViewOf(log, call).results > 0)
  }

  ghost predicate LogOk(log: seq<Event>) { forall c :: c != "" ==> CallOk(log, c) }

  predicate PhaseOk(v: View, phase: Phase) {
    && v.results == 0
    && (phase.Queued? ==> v.dispatches == 0)
    && (phase.Live? && phase.resumed && phase.barrier.Some? ==> !v.waiting)
  }

  /** The lease holder's cache misses no record, its calls are unsettled, and after a recovery it only
      resumes, and no call that waits dangles. */
  ghost predicate HolderOk(log: seq<Event>, w: Worker) {
    && (w.cache.Some? ==> Records(w.cache.value) == Records(log))
    && (forall c :: c in w.jobs ==> c != "" && PhaseOk(ViewOf(log, c), w.jobs[c]))
    && (w.recovered ==> OnlyResumed(w.jobs) && forall c :: c in Dangling(log) ==> !ViewOf(log, c).waiting)
  }

  predicate OnlyResumed(jobs: map<string, Phase>) { forall c :: c in jobs ==> jobs[c].Live? || jobs[c].Delivered? }

  predicate IsBarrier(log: seq<Event>, b: nat) {
    b < |log| && (log[b].payload.ToolDispatched? || log[b].payload == ToolResumeStarted(false))
  }

  /** Execution permissions: one per barrier, spent by executing. */
  ghost predicate TokensOk(s: Sys) {
    && (forall b :: b in s.armed ==> IsBarrier(s.log, b))
    && (forall i :: 0 <= i < |s.execs| ==> ExecOk(s.log, s.execs[i]))
    && (forall i :: 0 <= i < |s.execs| && s.execs[i].barrier.Some? ==> s.execs[i].barrier.value !in s.armed)
    && DistinctBarriers(s.execs)
  }

  /** No barrier serves two executions. */
  ghost predicate DistinctBarriers(execs: seq<Exec>) {
    forall i, j :: 0 <= i < j < |execs| && execs[i].barrier.Some? ==> execs[i].barrier != execs[j].barrier
  }

  ghost predicate Unspent(execs: seq<Exec>, barrier: nat) {
    forall i :: 0 <= i < |execs| ==> execs[i].barrier != Some(barrier)
  }

  /** A barrier whose tool/running record is not written yet is its call's own and unspent. */
  ghost predicate MarkOk(s: Sys, call: string, phase: Phase) {
    phase.Marked? && phase.barrier.Some? ==>
      (IsBarrier(s.log, phase.barrier.value) && s.log[phase.barrier.value].call == call
       && phase.barrier.value !in s.armed && Unspent(s.execs, phase.barrier.value))
  }

  ghost predicate MarksOk(s: Sys, jobs: map<string, Phase>) { forall c :: c in jobs ==> MarkOk(s, c, jobs[c]) }

  ghost predicate ExecOk(log: seq<Event>, x: Exec) {
    x.at <= |log|
    && (x.barrier.Some? ==> IsBarrier(log, x.barrier.value) && log[x.barrier.value].call == x.call && x.barrier.value < x.at)
  }

  ghost predicate SysOk(s: Sys) {
    && LogOk(s.log)
    && (forall f :: f in s.workers ==> f <= s.fence)
    && (s.fence in s.workers ==> HolderOk(s.log, s.workers[s.fence]) && MarksOk(s, s.workers[s.fence].jobs))
    && TokensOk(s)
  }

  // ---------------------------------------------------------------- one write

  lemma ViewSnoc(log: seq<Event>, sid: string, e: Event, call: string)
    ensures ViewOf(Write(log, sid, e), call) == NextView(ViewOf(log, call), e, call)
    ensures StateOf(Write(log, sid, e), call) == NextState(StateOf(log, call), e, call)
  {
    assert Write(log, sid, e)[..|log|] == log;
    StoredMoves(ViewOf(log, call), StateOf(log, call), sid, |log| + 1, e, call);
  }

  /** Sequence and session, which the store assigns, move no call. */
  lemma StoredMoves(v: View, st: CallState, sid: string, seqNo: nat, e: Event, call: string)
    ensures NextView(v, Stored(e, sid, seqNo), call) == NextView(v, e, call)
    ensures NextState(st, Stored(e, sid, seqNo), call) == NextState(st, e, call)
  {
  }

  lemma IdsSnoc(log: seq<Event>, sid: string, e: Event)
    ensures Ids(Write(log, sid, e)) == Ids(log) + (if e.id == NoId then {} else {e.id})
  {
    assert forall x :: x in Write(log, sid, e) <==> x in log || x == Stored(e, sid, |log| + 1);
  }

  /** A write that keeps its own call sound keeps the log sound. */
  lemma WriteKeepsLog(log: seq<Event>, sid: string, e: Event)
    requires LogOk(log) && !e.id.RecoverUnknown?
    requires e.call != "" ==> Sound(NextView(ViewOf(log, e.call), e, e.call), NextState(StateOf(log, e.call), e, e.call))
    ensures LogOk(Write(log, sid, e))
  {
    forall c | c != "" ensures CallOk(Write(log, sid, e), c) {
      assert CallOk(log, c);
      ViewSnoc(log, sid, e, c);
      IdsSnoc(log, sid, e);
    }
  }

  ghost predicate SameElsewhere(before: map<string, Phase>, after: map<string, Phase>, call: string) {
    && (forall c :: c in before && c != call ==> c in after)
    && (forall c :: c in after && c != call ==> c in before && after[c] == before[c])
  }

  /** What is left when a write changes nothing: only the written call's phase may change. */
  lemma SwallowKeepsHolder(log: seq<Event>, w: Worker, call: string, jobs: map<string, Phase>)
    requires HolderOk(log, w) && SameElsewhere(w.jobs, jobs, call)
    requires call in jobs ==> call != "" && PhaseOk(ViewOf(log, call), jobs[call])
    requires w.recovered && call in jobs ==> jobs[call].Live? || jobs[call].Delivered?
    ensures HolderOk(log, w.(jobs := jobs))
  {
  }

  /** What a worker knows after an event is added and its cache takes it. */
  lemma WriteKeepsHolder(log: seq<Event>, sid: string, w: Worker, e: Event, jobs: map<string, Phase>)
    requires HolderOk(log, w) && SameElsewhere(w.jobs, jobs, e.call)
    requires e.call in jobs ==> e.call != "" && PhaseOk(NextView(ViewOf(log, e.call), e, e.call), jobs[e.call])
    requires w.recovered && e.call in jobs ==> jobs[e.call].Live? || jobs[e.call].Delivered?
    requires w.recovered && e.call != "" && IsDangling(NextState(StateOf(log, e.call), e, e.call))
             ==> !NextView(ViewOf(log, e.call), e, e.call).waiting
    ensures HolderOk(Write(log, sid, e), w.(jobs := jobs, cache := Cached(w.cache, log, sid, e)))
  {
    var after := Write(log, sid, e);
    forall c | c in jobs ensures c != "" && PhaseOk(ViewOf(after, c), jobs[c]) {
      ViewSnoc(log, sid, e, c);
    }
    DanglingByState(log);
    DanglingByState(after);
    forall c | w.recovered && c in Dangling(after) ensures !ViewOf(after, c).waiting {
      ViewSnoc(log, sid, e, c);
    }
    RecordsSnoc(log, Stored(e, sid, |log| + 1));
    if w.cache.Some? { RecordsSnoc(w.cache.value, Stored(e, sid, |log| + 1)); }
  }

  function Cached(cache: Option<seq<Event>>, log: seq<Event>, sid: string, e: Event): Option<seq<Event>> {
    if cache.Some? then Some(cache.value + [Stored(e, sid, |log| + 1)]) else None
  }

  /** Growing the log keeps permissions and marks. */
  lemma GrowKeepsTokens(s: Sys, after: Sys)
    requires TokensOk(s) && s.log <= after.log && after.armed == s.armed && after.execs == s.execs
    ensures TokensOk(after)
    ensures forall c, phase :: MarkOk(s, c, phase) ==> MarkOk(after, c, phase)
  {
    assert forall b: nat :: b < |s.log| ==> after.log[b] == s.log[b];
    assert forall b: nat :: IsBarrier(s.log, b) ==> IsBarrier(after.log, b);
  }

  /** Lifecycle folds do not read what an emitter sets. */
  lemma NamedMoves(em: Emitter, v: View, st: CallState, e: Event, call: string)
    ensures NextView(v, Named(em, e), call) == NextView(v, e, call) && NextState(st, Named(em, e), call) == NextState(st, e, call)
  {
  }

  /** What a write may do: the event keeps its call sound, and phase and recovery are right whether
      the log took the event or held its id. */
  ghost predicate MayLeave(s: Sys, f: nat, em: Emitter, e: Event, jobs: map<string, Phase>)
    requires f in s.workers
  {
    var v, st := ViewOf(s.log, e.call), StateOf(s.log, e.call);
    (s.workers[f].recovered && e.call in jobs ==> jobs[e.call].Live? || jobs[e.call].Delivered?)
    && if Swallows(s.log, em) then
      e.call in jobs ==> e.call != "" && PhaseOk(v, jobs[e.call])
    else
      && (e.call != "" ==> Sound(NextView(v, e, e.call), NextState(st, e, e.call)))
      && (e.call in jobs ==> e.call != "" && PhaseOk(NextView(v, e, e.call), jobs[e.call]))
      && (s.workers[f].recovered && e.call != "" && IsDangling(NextState(st, e, e.call)) ==> !NextView(v, e, e.call).waiting)
  }

  /** One write by the lease holder that changes no permission. */
  lemma WriteKeeps(s: Sys, sid: string, f: nat, em: Emitter, e: Event, jobs: map<string, Phase>)
    requires SysOk(s) && MayWrite(s, f, e) && SameElsewhere(s.workers[f].jobs, jobs, e.call) && MayLeave(s, f, em, e, jobs)
    requires e.call in jobs ==> MarkOk(Wrote(s, sid, f, em, e, jobs), e.call, jobs[e.call])
    ensures SysOk(Wrote(s, sid, f, em, e, jobs))
  {
    if Swallows(s.log, em) {
      WriteSwallowed(s, sid, f, em, e, jobs);
    } else {
      WriteTaken(s, sid, f, em, e, jobs);
    }
  }

  lemma WriteSwallowed(s: Sys, sid: string, f: nat, em: Emitter, e: Event, jobs: map<string, Phase>)
    requires SysOk(s) && MayWrite(s, f, e) && SameElsewhere(s.workers[f].jobs, jobs, e.call) && MayLeave(s, f, em, e, jobs)
    requires e.call in jobs ==> MarkOk(Wrote(s, sid, f, em, e, jobs), e.call, jobs[e.call])
    requires Swallows(s.log, em)
    ensures SysOk(Wrote(s, sid, f, em, e, jobs))
  {
    var after := Wrote(s, sid, f, em, e, jobs);
    SwallowKeepsHolder(s.log, s.workers[f], e.call, jobs);
    forall c | c in jobs ensures MarkOk(after, c, jobs[c]) {
      if c != e.call { assert MarkOk(s, c, s.workers[f].jobs[c]); }
    }
  }

  lemma WriteTaken(s: Sys, sid: string, f: nat, em: Emitter, e: Event, jobs: map<string, Phase>)
    requires SysOk(s) && MayWrite(s, f, e) && SameElsewhere(s.workers[f].jobs, jobs, e.call) && MayLeave(s, f, em, e, jobs)
    requires e.call in jobs ==> MarkOk(Wrote(s, sid, f, em, e, jobs), e.call, jobs[e.call])
    requires !Swallows(s.log, em)
    ensures SysOk(Wrote(s, sid, f, em, e, jobs))
  {
    var after := Wrote(s, sid, f, em, e, jobs);
    NamedMoves(em, ViewOf(s.log, e.call), StateOf(s.log, e.call), e, e.call);
    WriteKeepsLog(s.log, sid, Named(em, e));
    WriteKeepsHolder(s.log, sid, s.workers[f], Named(em, e), jobs);
    GrowKeepsTokens(s, after);
    forall c | c in jobs ensures MarkOk(after, c, jobs[c]) {
      if c != e.call { assert MarkOk(s, c, s.workers[f].jobs[c]); }
    }
  }

  // ---------------------------------------------------------------- what the guards know

  lemma {:induction false} Unmentioned(log: seq<Event>, call: string)
    requires forall i :: 0 <= i < |log| ==> log[i].call != call
    ensures ViewOf(log, call) == NO_VIEW && StateOf(log, call) == CallPending
  {
    if |log| > 0 {
      Unmentioned(log[..|log| - 1], call);
    }
  }

  lemma {:induction false} UndispatchedView(log: seq<Event>, call: string)
    requires !HasDispatch(log, call)
    ensures ViewOf(log, call).dispatches == 0
  {
    if |log| > 0 {
      var before := log[..|log| - 1];
      assert forall i :: 0 <= i < |before| ==> before[i] == log[i];
      UndispatchedView(before, call);
    }
  }

  lemma {:induction false} UnsettledView(log: seq<Event>, call: string)
    requires !HasResult(log, call)
    ensures ViewOf(log, call).results == 0
  {
    if |log| > 0 {
      var before := log[..|log| - 1];
      assert forall i :: 0 <= i < |before| ==> before[i] == log[i];
      UnsettledView(before, call);
    }
  }

  /** An unstarted record means a deferral that nothing has resumed. */
  lemma {:induction false} UnstartedWaits(log: seq<Event>, call: string, key: string)
    requires RecordOf(log, call, key).deferred.Some? && !RecordOf(log, call, key).resumeStarted
    ensures ViewOf(log, call).waiting
  {
    if |log| > 0 {
      var before, e := log[..|log| - 1], log[|log| - 1];
      if RecordOf(before, call, key).deferred.Some? && !RecordOf(before, call, key).resumeStarted {
        UnstartedWaits(before, call, key);
      }
    }
  }

  /** A record without result means an unsettled call, as long as nothing follows results. */
  lemma {:induction false} NoResultMeansUnsettled(log: seq<Event>, call: string, key: string)
    requires RecordOf(log, call, key).deferred.Some? && !RecordOf(log, call, key).resultExists
    requires !ViewOf(log, call).late
    ensures ViewOf(log, call).results == 0
  {
    if |log| > 0 {
      var before := log[..|log| - 1];
      if RecordOf(before, call, key).deferred.Some? && !RecordOf(before, call, key).resultExists {
        NoResultMeansUnsettled(before, call, key);
      }
    }
  }

  /** A call that may be resumed waits and is unsettled, and recovery has left it alone. */
  lemma ResumableWaits(s: Sys, f: nat, call: string, key: string)
    requires SysOk(s) && f == s.fence && InResume(s, f) && ResumeGuard(s.workers[f].cache.value, call, key)
    ensures ViewOf(s.log, call).waiting && ViewOf(s.log, call).results == 0 && call !in Dangling(s.log)
  {
    SameRecords(s.workers[f].cache.value, s.log, call, key);
    assert CallOk(s.log, call);
    UnstartedWaits(s.log, call, key);
    NoResultMeansUnsettled(s.log, call, key);
  }

  // ---------------------------------------------------------------- steps that write

  lemma AdmitKeeps(s: Sys, sid: string, f: nat, e: Event)
    requires SysOk(s) && Enabled(s, sid, Admit(f, e))
    ensures SysOk(Next(s, sid, Admit(f, e)))
  {
    var started := WithWorker(s, f, s.workers[f].(recovered := false));
    Unmentioned(s.log, e.call);
    LocalKeeps(s, f, s.workers[f].(recovered := false));
    WriteKeeps(started, sid, f, s.workers[f].em.value, e, Jobs(s, f)[e.call := Queued]);
  }

  lemma ForgetKeeps(s: Sys, f: nat)
    requires SysOk(s) && f in s.workers
    ensures SysOk(Forgets(s, f))
  {
    var after := Forgets(s, f);
    if s.fence in s.workers {
      assert after.workers[s.fence].jobs == s.workers[s.fence].jobs;
      forall c | c in s.workers[s.fence].jobs ensures MarkOk(after, c, s.workers[s.fence].jobs[c]) {
        assert MarkOk(s, c, s.workers[s.fence].jobs[c]);
      }
    }
  }

  lemma DispatchKeeps(s: Sys, sid: string, f: nat, e: Event)
    requires SysOk(s) && Enabled(s, sid, Dispatch(f, e))
    ensures SysOk(Next(s, sid, Dispatch(f, e)))
  {
    var em := s.workers[f].em.value;
    var jobs := Jobs(s, f)[e.call := Marked(BarrierAt(s.log, em))];
    assert CallOk(s.log, e.call);
    assert PhaseOk(ViewOf(s.log, e.call), Queued);
    WriteKeeps(s, sid, f, em, e, jobs);
    ForgetKeeps(Wrote(s, sid, f, em, e, jobs), f);
  }

  lemma RunningKeeps(s: Sys, sid: string, f: nat, e: Event)
    requires SysOk(s) && Enabled(s, sid, Running(f, e))
    ensures SysOk(Next(s, sid, Running(f, e)))
  {
    var em, phase := s.workers[f].em.value, Jobs(s, f)[e.call];
    var jobs := Jobs(s, f)[e.call := Live(phase.barrier, false)];
    assert CallOk(s.log, e.call);
    assert PhaseOk(ViewOf(s.log, e.call), phase) && MarkOk(s, e.call, phase);
    WriteKeeps(s, sid, f, em, e, jobs);
    ForgetKeeps(Wrote(s, sid, f, em, e, jobs), f);
    RunningArms(s, sid, f, em, e, jobs, phase.barrier);
  }

  lemma RunningArms(s: Sys, sid: string, f: nat, em: Emitter, e: Event, jobs: map<string, Phase>, barrier: Option<nat>)
    requires SysOk(s) && MayWrite(s, f, e) && e.call in s.workers[f].jobs && s.workers[f].jobs[e.call] == Marked(barrier)
    requires jobs == s.workers[f].jobs[e.call := Live(barrier, false)]
    requires SysOk(Forgets(Wrote(s, sid, f, em, e, jobs), f))
    ensures SysOk(Arm(Forgets(Wrote(s, sid, f, em, e, jobs), f), f, e.call, barrier))
  {
    var after := Forgets(Wrote(s, sid, f, em, e, jobs), f);
    if barrier.Some? {
      assert MarkOk(s, e.call, Marked(barrier));
      forall c | c in jobs && jobs[c].Marked? ensures jobs[c].barrier != barrier {
        assert MarkOk(s, c, s.workers[f].jobs[c]);
      }
      ArmKeeps(after, f, e.call, barrier.value);
    } else {
      BareKeeps(after, after.bare + {Bare(f, e.call)});
    }
  }

  /** Permissions without a barrier concern nothing that is written. */
  lemma BareKeeps(s: Sys, bare: set<Bare>)
    requires SysOk(s)
    ensures SysOk(s.(bare := bare))
  {
    var after := s.(bare := bare);
    if s.fence in s.workers {
      forall c | c in s.workers[s.fence].jobs ensures MarkOk(after, c, s.workers[s.fence].jobs[c]) {
        assert MarkOk(s, c, s.workers[s.fence].jobs[c]);
      }
    }
  }

  /** Arming an unspent barrier that no other call of the holder has marked. */
  lemma ArmKeeps(s: Sys, f: nat, call: string, barrier: nat)
    requires SysOk(s) && IsBarrier(s.log, barrier) && Unspent(s.execs, barrier)
    requires s.fence in s.workers ==>
      forall c :: c in s.workers[s.fence].jobs && s.workers[s.fence].jobs[c].Marked? ==> s.workers[s.fence].jobs[c].barrier != Some(barrier)
    ensures SysOk(Arm(s, f, call, Some(barrier)))
  {
    var after := Arm(s, f, call, Some(barrier));
    if s.fence in s.workers {
      forall c | c in s.workers[s.fence].jobs ensures MarkOk(after, c, s.workers[s.fence].jobs[c]) {
        assert MarkOk(s, c, s.workers[s.fence].jobs[c]);
      }
    }
  }

  lemma DisarmKeeps(s: Sys, f: nat, call: string, phase: Phase)
    requires SysOk(s)
    ensures SysOk(Disarm(s, f, call, phase))
  {
    var after := Disarm(s, f, call, phase);
    assert forall b :: b in after.armed ==> b in s.armed;
    if s.fence in s.workers {
      forall c | c in s.workers[s.fence].jobs ensures MarkOk(after, c, s.workers[s.fence].jobs[c]) {
        assert MarkOk(s, c, s.workers[s.fence].jobs[c]);
      }
    }
  }

  lemma ResumeKeeps(s: Sys, sid: string, f: nat, key: string, e: Event)
    requires SysOk(s) && Enabled(s, sid, ResumeCall(f, key, e))
    ensures SysOk(Next(s, sid, ResumeCall(f, key, e)))
  {
    var em := ResumeEmitter(s.workers[f].cache.value, e.call, key);
    ResumableWaits(s, f, e.call, key);
    ResumeWrites(s, sid, f, em, e);
    ResumeArms(s, sid, f, em, e);
  }

  lemma ResumeWrites(s: Sys, sid: string, f: nat, em: Emitter, e: Event)
    requires SysOk(s) && MayWrite(s, f, e) && e.payload == ToolResumeStarted(false)
    requires ViewOf(s.log, e.call).waiting && ViewOf(s.log, e.call).results == 0
    ensures SysOk(Wrote(s, sid, f, em, e, Jobs(s, f)[e.call := Live(BarrierAt(s.log, em), true)]))
  {
    assert CallOk(s.log, e.call);
    WriteKeeps(s, sid, f, em, e, Jobs(s, f)[e.call := Live(BarrierAt(s.log, em), true)]);
  }

  lemma ResumeArms(s: Sys, sid: string, f: nat, em: Emitter, e: Event)
    requires SysOk(s) && MayWrite(s, f, e) && e.payload == ToolResumeStarted(false)
    requires var jobs := Jobs(s, f)[e.call := Live(BarrierAt(s.log, em), true)];
             SysOk(Wrote(s, sid, f, em, e, jobs))
    ensures var barrier := BarrierAt(s.log, em);
            SysOk(Arm(Wrote(s, sid, f, em, e, Jobs(s, f)[e.call := Live(barrier, true)]), f, e.call, barrier))
  {
    var barrier := BarrierAt(s.log, em);
    var after := Wrote(s, sid, f, em, e, Jobs(s, f)[e.call := Live(barrier, true)]);
    if barrier.Some? {
      NewBarrier(s, |s.log|);
      ArmKeeps(after, f, e.call, |s.log|);
    } else {
      BareKeeps(after, after.bare + {Bare(f, e.call)});
    }
  }

  /** Nothing refers to a barrier that is not on the log yet. */
  lemma NewBarrier(s: Sys, barrier: nat)
    requires SysOk(s) && barrier >= |s.log|
    ensures Unspent(s.execs, barrier)
    ensures s.fence in s.workers ==>
      forall c :: c in s.workers[s.fence].jobs && s.workers[s.fence].jobs[c].Marked? ==> s.workers[s.fence].jobs[c].barrier != Some(barrier)
  {
    forall i | 0 <= i < |s.execs| ensures s.execs[i].barrier != Some(barrier) {
      assert ExecOk(s.log, s.execs[i]);
    }
    if s.fence in s.workers {
      forall c | c in s.workers[s.fence].jobs && s.workers[s.fence].jobs[c].Marked? ensures s.workers[s.fence].jobs[c].barrier != Some(barrier) {
        assert MarkOk(s, c, s.workers[s.fence].jobs[c]);
      }
    }
  }

  lemma MaterializeKeeps(s: Sys, sid: string, f: nat, key: string, e: Event)
    requires SysOk(s) && Enabled(s, sid, Materialize(f, key, e))
    ensures SysOk(Next(s, sid, Materialize(f, key, e)))
  {
    ResumableWaits(s, f, e.call, key);
    assert CallOk(s.log, e.call);
    WriteKeeps(s, sid, f, ResumeEmitter(s.workers[f].cache.value, e.call, key), e, Jobs(s, f)[e.call := Delivered]);
  }

  /** An outcome, or a deferral, ends the worker's part in a call. */
  lemma OutcomeKeeps(s: Sys, sid: string, f: nat, em: Emitter, e: Event)
    requires SysOk(s) && MayWrite(s, f, e) && Job(s, f, e.call).Some? && (e.payload.ToolResult? || e.payload.ToolDeferred?)
    ensures SysOk(Disarm(Wrote(s, sid, f, em, e, Jobs(s, f) - {e.call}), f, e.call, Jobs(s, f)[e.call]))
  {
    var jobs := Jobs(s, f) - {e.call};
    assert CallOk(s.log, e.call);
    assert PhaseOk(ViewOf(s.log, e.call), Jobs(s, f)[e.call]);
    WriteKeeps(s, sid, f, em, e, jobs);
    DisarmKeeps(Wrote(s, sid, f, em, e, jobs), f, e.call, Jobs(s, f)[e.call]);
  }

  /** An approval record moves no call, except that a request hides an unknown outcome. */
  lemma ApprovalMoves(log: seq<Event>, sid: string, e: Event, call: string)
    requires IsApproval(e.payload)
    ensures ViewOf(Write(log, sid, e), call) == ViewOf(log, call)
    ensures IsDangling(StateOf(Write(log, sid, e), call)) ==> IsDangling(StateOf(log, call))
    ensures (StateOf(log, call) == CallResult && !(e.call == call && e.payload.ApprovalRequested?))
      ==> StateOf(Write(log, sid, e), call) == CallResult
  {
    ViewSnoc(log, sid, e, call);
  }

  lemma ApprovalKeepsCalls(log: seq<Event>, sid: string, e: Event)
    requires LogOk(log) && e.id.ApprovalId? && IsApproval(e.payload)
    requires e.payload.ApprovalRequested? ==> ViewOf(log, e.call).results == 0
    ensures LogOk(Write(log, sid, e))
  {
    IdsSnoc(log, sid, e);
    forall c | c != "" ensures CallOk(Write(log, sid, e), c) {
      assert CallOk(log, c);
      ApprovalMoves(log, sid, e, c);
    }
  }

  lemma ApprovalKeepsHolder(log: seq<Event>, sid: string, e: Event, w: Worker)
    requires HolderOk(log, w) && IsApproval(e.payload)
    ensures HolderOk(Write(log, sid, e), w)
  {
    var after := Write(log, sid, e);
    RecordsSnoc(log, Stored(e, sid, |log| + 1));
    assert Records(log) + [] == Records(log);
    DanglingByState(log);
    DanglingByState(after);
    forall c ensures c in Dangling(after) ==> c in Dangling(log)
      ensures ViewOf(after, c) == ViewOf(log, c)
    {
      ApprovalMoves(log, sid, e, c);
    }
  }

  /** An approval record, whoever writes it and whenever, disturbs nothing. */
  lemma ApprovalKeeps(s: Sys, sid: string, e: Event)
    requires SysOk(s) && e.call != "" && e.id.ApprovalId? && IsApproval(e.payload)
    requires e.payload.ApprovalRequested? ==> ViewOf(s.log, e.call).results == 0
    ensures SysOk(s.(log := Write(s.log, sid, e)))
  {
    ApprovalKeepsCalls(s.log, sid, e);
    GrowKeepsTokens(s, s.(log := Write(s.log, sid, e)));
    if s.fence in s.workers { ApprovalKeepsHolder(s.log, sid, e, s.workers[s.fence]); }
  }

  lemma AskKeeps(s: Sys, sid: string, f: nat, e: Event)
    requires SysOk(s) && Enabled(s, sid, Ask(f, e))
    ensures SysOk(Next(s, sid, Ask(f, e)))
  {
    assert PhaseOk(ViewOf(s.log, e.call), Jobs(s, f)[e.call]);
    ApprovalKeeps(s, sid, e);
  }

  lemma NoteKeeps(s: Sys, sid: string, f: nat, e: Event)
    requires SysOk(s) && Enabled(s, sid, Note(f, e))
    ensures SysOk(Next(s, sid, Note(f, e)))
  {
    var em := s.workers[f].em.value;
    NoteLeaves(s, f, em, e);
    if e.call in Jobs(s, f) { MarkGrows(s, Wrote(s, sid, f, em, e, Jobs(s, f)), e.call, Jobs(s, f)[e.call]); }
    WriteKeeps(s, sid, f, em, e, Jobs(s, f));
  }

  lemma NoteLeaves(s: Sys, f: nat, em: Emitter, e: Event)
    requires SysOk(s) && f == s.fence && f in s.workers && !IsLifecycle(e.payload)
    ensures MayLeave(s, f, em, e, Jobs(s, f))
  {
    if e.call != "" { assert CallOk(s.log, e.call); }
    DanglingByState(s.log);
  }

  lemma MarkGrows(s: Sys, after: Sys, call: string, phase: Phase)
    requires SysOk(s) && s.fence in s.workers && call in s.workers[s.fence].jobs && s.workers[s.fence].jobs[call] == phase
    requires s.log <= after.log && after.armed == s.armed && after.execs == s.execs
    ensures MarkOk(after, call, phase)
  {
    assert MarkOk(s, call, phase);
    GrowKeepsTokens(s, after);
  }

  /** An event that is no lifecycle event moves no call. */
  lemma ForeignMoves(log: seq<Event>, sid: string, e: Event, call: string)
    requires !IsLifecycle(e.payload)
    ensures ViewOf(Write(log, sid, e), call) == ViewOf(log, call) && StateOf(Write(log, sid, e), call) == StateOf(log, call)
  {
    ViewSnoc(log, sid, e, call);
  }

  lemma ForeignKeepsLog(log: seq<Event>, sid: string, e: Event)
    requires LogOk(log) && !IsLifecycle(e.payload) && ForeignId(e.id)
    ensures LogOk(Write(log, sid, e))
  {
    IdsSnoc(log, sid, e);
    forall c | c != "" ensures CallOk(Write(log, sid, e), c) {
      assert CallOk(log, c);
      ForeignMoves(log, sid, e, c);
    }
  }

  lemma ForeignKeepsHolder(log: seq<Event>, sid: string, e: Event, w: Worker, cached: bool)
    requires HolderOk(log, w) && !IsLifecycle(e.payload)
    ensures HolderOk(Write(log, sid, e), if cached then w.(cache := Cached(w.cache, log, sid, e)) else w)
  {
    var after := Write(log, sid, e);
    RecordsSnoc(log, Stored(e, sid, |log| + 1));
    assert Records(log) + [] == Records(log);
    if w.cache.Some? {
      RecordsSnoc(w.cache.value, Stored(e, sid, |log| + 1));
      assert Records(w.cache.value) + [] == Records(w.cache.value);
    }
    DanglingByState(log);
    DanglingByState(after);
    forall c ensures ViewOf(after, c) == ViewOf(log, c) && StateOf(after, c) == StateOf(log, c) {
      ForeignMoves(log, sid, e, c);
    }
  }

  lemma OtherKeeps(s: Sys, sid: string, f: nat, e: Event)
    requires SysOk(s) && Enabled(s, sid, Other(f, e))
    ensures SysOk(Next(s, sid, Other(f, e)))
  {
    ForeignKeepsLog(s.log, sid, e);
    ForeignKeepsHolder(s.log, sid, e, s.workers[f], true);
    GrowKeepsTokens(s, Next(s, sid, Other(f, e)));
  }

  lemma PastKeeps(s: Sys, sid: string, e: Event)
    requires SysOk(s) && Enabled(s, sid, Past(e))
    ensures SysOk(Next(s, sid, Past(e)))
  {
    ForeignKeepsLog(s.log, sid, e);
    GrowKeepsTokens(s, Next(s, sid, Past(e)));
    if s.fence in s.workers { ForeignKeepsHolder(s.log, sid, e, s.workers[s.fence], false); }
  }

  // ---------------------------------------------------------------- steps that do not write

  lemma ClaimKeeps(s: Sys, sid: string)
    requires SysOk(s)
    ensures SysOk(Next(s, sid, Claim))
  {
  }

  lemma LocalKeeps(s: Sys, f: nat, w: Worker)
    requires SysOk(s) && f in s.workers
    requires f == s.fence ==> HolderOk(s.log, w) && MarksOk(s, w.jobs)
    ensures SysOk(WithWorker(s, f, w))
  {
    var after := WithWorker(s, f, w);
    if s.fence in s.workers {
      forall c | c in after.workers[s.fence].jobs ensures MarkOk(after, c, after.workers[s.fence].jobs[c]) {
        assert MarkOk(s, c, after.workers[s.fence].jobs[c]);
      }
    }
  }

  lemma ApproveKeeps(s: Sys, sid: string, f: nat, call: string, run: string)
    requires SysOk(s) && Enabled(s, sid, Approve(f, call, run))
    ensures SysOk(Next(s, sid, Approve(f, call, run)))
  {
    var cache := s.workers[f].cache.value;
    UndispatchedView(cache, call);
    UnsettledView(cache, call);
    if f == s.fence { SameRecords(cache, s.log, call, ""); }
    LocalKeeps(s, f, s.workers[f].(recovered := false, jobs := map[call := Queued], em := Some(Emitter(run, |cache|))));
  }

  lemma RedeliverKeeps(s: Sys, sid: string, f: nat, key: string, call: string)
    requires SysOk(s) && Enabled(s, sid, Redeliver(f, key, call))
    ensures SysOk(Next(s, sid, Redeliver(f, key, call)))
  {
    if f == s.fence {
      assert CallOk(s.log, call);
      SameRecords(s.workers[f].cache.value, s.log, call, key);
      NoResultMeansUnsettled(s.log, call, key);
    }
    LocalKeeps(s, f, s.workers[f].(jobs := map[call := Delivered], em := Some(ResumeEmitter(s.workers[f].cache.value, call, key))));
  }

  lemma ExecuteKeeps(s: Sys, sid: string, barrier: nat)
    requires SysOk(s) && Enabled(s, sid, Execute(barrier))
    ensures SysOk(Next(s, sid, Execute(barrier)))
  {
    var after := Next(s, sid, Execute(barrier));
    if s.fence in s.workers {
      forall c | c in s.workers[s.fence].jobs ensures MarkOk(after, c, s.workers[s.fence].jobs[c]) {
        assert MarkOk(s, c, s.workers[s.fence].jobs[c]);
      }
    }
  }

  lemma ExecuteBareKeeps(s: Sys, sid: string, f: nat, call: string)
    requires SysOk(s) && Enabled(s, sid, ExecuteBare(f, call))
    ensures SysOk(Next(s, sid, ExecuteBare(f, call)))
  {
    var after := Next(s, sid, ExecuteBare(f, call));
    if s.fence in s.workers {
      forall c | c in s.workers[s.fence].jobs ensures MarkOk(after, c, s.workers[s.fence].jobs[c]) {
        assert MarkOk(s, c, s.workers[s.fence].jobs[c]);
      }
    }
  }

  lemma DropKeeps(s: Sys, sid: string, f: nat, call: string)
    requires SysOk(s) && Enabled(s, sid, Drop(f, call))
    ensures SysOk(Next(s, sid, Drop(f, call)))
  {
    var w := s.workers[f].(recovered := false, jobs := Jobs(s, f) - {call});
    LocalKeeps(s, f, w);
    DisarmKeeps(WithWorker(s, f, w), f, call, Jobs(s, f)[call]);
  }

  lemma CrashKeeps(s: Sys, sid: string, f: nat)
    requires SysOk(s) && Enabled(s, sid, Crash(f))
    ensures SysOk(Next(s, sid, Crash(f)))
  {
    var after := Next(s, sid, Crash(f));
    if after.fence in after.workers {
      assert MarksOk(s, s.workers[s.fence].jobs);
      forall c | c in after.workers[s.fence].jobs ensures MarkOk(after, c, after.workers[s.fence].jobs[c]) {
        assert MarkOk(s, c, s.workers[s.fence].jobs[c]);
      }
    }
  }

  // ---------------------------------------------------------------- recovery

  /** No two results of a batch name the same call. */
  ghost predicate DistinctResults(es: seq<Event>) {
    forall i, j :: 0 <= i < j < |es| && es[i].payload.ToolResult? && es[j].payload.ToolResult? ==> es[i].call != es[j].call
  }

  ghost predicate DistinctTail(log: seq<Event>, after: seq<Event>) {
    forall i, j :: |log| <= i < j < |after| && after[i].payload.ToolResult? && after[j].payload.ToolResult?
      ==> after[i].call != after[j].call
  }

  lemma {:induction false} TailIsDistinct(log: seq<Event>, sid: string, batch: seq<Event>)
    requires DistinctResults(batch)
    ensures DistinctTail(log, AppendedNew(log, sid, batch))
  {
    if |batch| > 0 {
      var init, last := batch[..|batch| - 1], batch[|batch| - 1];
      var before := AppendedNew(log, sid, init);
      TailIsDistinct(log, sid, init);
      forall i: nat | |log| <= i < |before| && before[i].payload.ToolResult? && last.payload.ToolResult?
        ensures before[i].call != last.call
      {
        var b := TailOrigin(log, sid, init, i);
        var k :| 0 <= k < |init| && init[k] == b;
        assert batch[k] == b;
      }
    }
  }

  predicate Distinct<T(==)>(s: seq<T>) { forall i, j :: 0 <= i < j < |s| ==> s[i] != s[j] }

  lemma {:induction false} RememberAllDistinct(order: seq<string>, calls: seq<string>)
    requires Distinct(order)
    ensures Distinct(RememberAll(order, calls))
  {
    if |calls| > 0 {
      RememberAllDistinct(order, calls[..|calls| - 1]);
    }
  }

  lemma {:induction false} OrderDistinct(log: seq<Event>)
    ensures Distinct(CallOrder(log))
  {
    if |log| > 0 {
      OrderDistinct(log[..|log| - 1]);
      var e := log[|log| - 1];
      if e.payload.AssistantMessage? { RememberAllDistinct(CallOrder(log[..|log| - 1]), e.payload.calls); }
    }
  }

  lemma {:induction false} DanglingDistinct(log: seq<Event>, order: seq<string>)
    requires Distinct(order)
    ensures Distinct(DanglingIn(log, order))
  {
    if |order| > 0 {
      var init, last := order[..|order| - 1], order[|order| - 1];
      DanglingDistinct(log, init);
      DanglingInMembers(log, init);
      var before := DanglingIn(log, init);
      forall i | 0 <= i < |before| ensures before[i] != last {
        assert before[i] in before;
        assert before[i] in init;
      }
    }
  }

  lemma {:induction false} ResultsAt(log: seq<Event>, calls: seq<string>, sid: string)
    ensures |ResultEvents(log, calls, sid)| == |calls|
    ensures forall i :: 0 <= i < |calls| ==> ResultEvents(log, calls, sid)[i].call == calls[i]
  {
    if |calls| > 0 {
      ResultsAt(log, calls[..|calls| - 1], sid);
    }
  }

  lemma BatchDistinct(log: seq<Event>, sid: string)
    ensures DistinctResults(RecoveryEvents(log, sid))
  {
    OrderDistinct(log);
    DanglingDistinct(log, CallOrder(log));
    ResultsAt(log, Dangling(log), sid);
    DraftRanks(log, sid);
    ResultRanks(log, sid);
    StepEndRanks(log, sid);
    OnlyMiddleResults(DraftEvents(log, DraftKeys(log), sid), ResultEvents(log, Dangling(log), sid),
                      StepEndEvents(OpenSteps(log), DeferredSteps(log), sid), TurnEndEvents(log, sid));
  }

  lemma OnlyMiddleResults(a: seq<Event>, b: seq<Event>, c: seq<Event>, d: seq<Event>)
    requires AllRank(a, 0) && AllRank(b, 1) && AllRank(c, 2) && AllRank(d, 3) && DistinctResults(b)
    ensures DistinctResults(a + b + c + d)
  {
    var es := a + b + c + d;
    forall i: nat | i < |es| ensures es[i].payload.ToolResult? ==> |a| <= i < |a| + |b| && es[i] == b[i - |a|] {
      SectionRank(a, b, c, d, i);
    }
  }

  /** Recovery changes what the log says of a call only by settling it once. */
  lemma {:induction false} ViewAfter(log: seq<Event>, after: seq<Event>, call: string)
    requires RecoveryTail(log, after) && DistinctTail(log, after) && call != ""
    ensures var v := ViewOf(log, call);
            ViewOf(after, call) == if TailHasResult(log, after, call)
                                   then v.(results := v.results + 1, late := v.late || v.results > 0) else v
    decreases |after|
  {
    if |after| > |log| {
      var init := TailInit(log, after);
      var e := after[|after| - 1];
      ViewAfter(log, init, call);
      if TailHasResult(log, init, call) {
        var i :| |log| <= i < |init| && init[i].payload.ToolResult? && init[i].call == call;
        assert after[i] == init[i];
      }
      if TailHasResult(log, after, call) && !(e.payload.ToolResult? && e.call == call) {
        var i :| |log| <= i < |after| && after[i].payload.ToolResult? && after[i].call == call;
        assert init[i] == after[i];
      }
    } else {
      assert after == log;
    }
  }

  lemma RecoveredIdSettles(log: seq<Event>, sid: string, call: string)
    requires LogOk(log) && call != "" && RecoverUnknown(call) in Ids(Recovered(log, sid))
    ensures RecoverUnknown(call) in Ids(log) || TailHasResult(log, Recovered(log, sid), call)
  {
    var after := Recovered(log, sid);
    RecoveredTail(log, sid);
    var e :| e in after && e.id == RecoverUnknown(call);
    var i: nat :| i < |after| && after[i] == e;
    if i < |log| {
      assert log[i] == e;
    } else {
      var b := TailOrigin(log, sid, RecoveryEvents(log, sid), i);
      BatchMember(log, sid, b);
      IdOfResult(log, sid, b);
    }
  }

  lemma IdOfResult(log: seq<Event>, sid: string, b: Event)
    requires b in RecoveryEvents(log, sid) && b.id.RecoverUnknown?
    ensures b.payload.ToolResult? && b.call == b.id.call
  {
    if b in DraftEvents(log, DraftKeys(log), sid) {
      DraftMembers(log, DraftKeys(log), sid);
    } else if b in ResultEvents(log, Dangling(log), sid) {
      ResultMembers(log, Dangling(log), sid);
    } else if b in StepEndEvents(OpenSteps(log), DeferredSteps(log), sid) {
      StepEndMembers(OpenSteps(log), DeferredSteps(log), sid);
    }
  }

  /** Dangling calls of a sound log were never settled, so their recovery ids are unused. */
  lemma RecoverKeepsLog(log: seq<Event>, sid: string)
    requires LogOk(log)
    ensures LogOk(Recovered(log, sid)) && Dangling(Recovered(log, sid)) == []
  {
    var after := Recovered(log, sid);
    RecoveredTail(log, sid);
    BatchDistinct(log, sid);
    TailIsDistinct(log, sid, RecoveryEvents(log, sid));
    DanglingByState(log);
    forall c | c != "" ensures CallOk(after, c) && (c in Dangling(log) ==> RecoverUnknown(c) !in Ids(log)) {
      assert CallOk(log, c);
      TailResultExactly(log, sid, c);
      ViewAfter(log, after, c);
      StateAfter(log, after, c);
      if RecoverUnknown(c) in Ids(after) { RecoveredIdSettles(log, sid, c); }
    }
    RecoverySettlesExactly(log, sid);
  }

  lemma RecoverKeeps(s: Sys, sid: string, f: nat)
    requires SysOk(s) && Enabled(s, sid, Recover(f))
    ensures SysOk(Next(s, sid, Recover(f)))
  {
    RecoverKeepsLog(s.log, sid);
    RecoveredTail(s.log, sid);
    GrowKeepsTokens(s, s.(log := Recovered(s.log, sid)));
  }

  // ---------------------------------------------------------------- every step, every run

  /** The steps of a worker's own emitter and of its memory. */
  lemma LocalStepKeeps(s: Sys, sid: string, step: Step)
    requires SysOk(s) && Enabled(s, sid, step)
    requires step.Refresh? || step.StartRun? || step.Continue? || step.Draw?
    ensures SysOk(Next(s, sid, step))
  {
    match step {
      case Refresh(f) => LocalKeeps(s, f, s.workers[f].(cache := Some(s.log)));
      case StartRun(f, run) => LocalKeeps(s, f, s.workers[f].(em := Some(Emitter(run, 0))));
      case Continue(f, run) => LocalKeeps(s, f, s.workers[f].(em := Some(Emitter(run, |s.workers[f].cache.value|))));
      case Draw(f) => LocalKeeps(s, f, s.workers[f].(em := Some(s.workers[f].em.value.(n := s.workers[f].em.value.n + 1))));
    }
  }

  /** The records that move no call. */
  lemma RecordStepKeeps(s: Sys, sid: string, step: Step)
    requires SysOk(s) && Enabled(s, sid, step)
    requires step.Ask? || step.Answer? || step.Note? || step.Other? || step.Past?
    ensures SysOk(Next(s, sid, step))
  {
    match step {
      case Ask(f, e) => AskKeeps(s, sid, f, e);
      case Answer(e) => ApprovalKeeps(s, sid, e);
      case Note(f, e) => NoteKeeps(s, sid, f, e);
      case Other(f, e) => OtherKeeps(s, sid, f, e);
      case Past(e) => PastKeeps(s, sid, e);
    }
  }

  lemma CallStepKeeps(s: Sys, sid: string, step: Step)
    requires SysOk(s) && Enabled(s, sid, step)
    requires step.Admit? || step.Approve? || step.Dispatch? || step.Running? || step.ResumeCall? || step.Materialize?
          || step.Redeliver? || step.Settle? || step.Defer? || step.Drop?
    ensures SysOk(Next(s, sid, step))
  {
    match step {
      case Admit(f, e) => AdmitKeeps(s, sid, f, e);
      case Approve(f, call, run) => ApproveKeeps(s, sid, f, call, run);
      case Dispatch(f, e) => DispatchKeeps(s, sid, f, e);
      case Running(f, e) => RunningKeeps(s, sid, f, e);
      case ResumeCall(f, key, e) => ResumeKeeps(s, sid, f, key, e);
      case Materialize(f, key, e) => MaterializeKeeps(s, sid, f, key, e);
      case Redeliver(f, key, call) => RedeliverKeeps(s, sid, f, key, call);
      case Settle(f, e) => OutcomeKeeps(s, sid, f, s.workers[f].em.value, e);
      case Defer(f, e) => OutcomeKeeps(s, sid, f, s.workers[f].em.value, e);
      case Drop(f, call) => DropKeeps(s, sid, f, call);
    }
  }

  lemma SystemStepKeeps(s: Sys, sid: string, step: Step)
    requires SysOk(s) && Enabled(s, sid, step)
    requires step.Claim? || step.Recover? || step.Execute? || step.ExecuteBare? || step.Crash?
    ensures SysOk(Next(s, sid, step))
  {
    match step {
      case Claim => ClaimKeeps(s, sid);
      case Recover(f) => RecoverKeeps(s, sid, f);
      case Execute(barrier) => ExecuteKeeps(s, sid, barrier);
      case ExecuteBare(f, call) => ExecuteBareKeeps(s, sid, f, call);
      case Crash(f) => CrashKeeps(s, sid, f);
    }
  }

  lemma StepKeeps(s: Sys, sid: string, step: Step)
    requires SysOk(s)
    ensures SysOk(Take(s, sid, step))
  {
    if Enabled(s, sid, step) {
      if step.Claim? || step.Recover? || step.Execute? || step.ExecuteBare? || step.Crash? {
        SystemStepKeeps(s, sid, step);
      } else if step.Ask? || step.Answer? || step.Note? || step.Other? || step.Past? {
        RecordStepKeeps(s, sid, step);
      } else if step.Refresh? || step.StartRun? || step.Continue? || step.Draw? {
        LocalStepKeeps(s, sid, step);
      } else {
        CallStepKeeps(s, sid, step);
      }
    }
  }

  /** The invariant holds in every reachable state. */
  lemma {:induction false} RunKeeps(sid: string, steps: seq<Step>)
    ensures SysOk(Run(sid, steps))
  {
    if |steps| > 0 {
      RunKeeps(sid, steps[..|steps| - 1]);
      StepKeeps(Run(sid, steps[..|steps| - 1]), sid, steps[|steps| - 1]);
    }
  }
}
