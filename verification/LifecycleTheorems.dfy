/** What holds of every run of the tool-call protocol: executions follow their own durable barriers
    unless the barrier's write changed nothing, those that do are bounded by deferrals, and barriers are
    separated by deferrals exactly when none is written over an open one; calls settle once, and
    recovery settles all but the calls that an approval request hides from it. */
module LifecycleTheorems {
  import opened Basics
  import opened Events
  import opened Store
  import opened Recovery
  import opened RecoveryMeaning
  import opened RecoveryTheorems
  import opened Lifecycle
  import opened LifecycleInvariant

  // ---------------------------------------------------------------- barriers

  /** Every execution, in every run, happens under a barrier of its own call that was on the log
      before it and serves no other execution, or under none because the barrier's write changed
      nothing. */
  lemma EveryExecutionHasItsBarrier(sid: string, steps: seq<Step>)
    ensures var s := Run(sid, steps);
            (forall i :: 0 <= i < |s.execs| ==> ExecOk(s.log, s.execs[i])) && DistinctBarriers(s.execs)
  {
    RunKeeps(sid, steps);
  }

  predicate Barrier(e: Event, call: string) { e.call == call && (e.payload.ToolDispatched? || e.payload == ToolResumeStarted(false)) }

  predicate Deferred(e: Event, call: string) { e.call == call && e.payload.ToolDeferred? }

  function BarrierSet(log: seq<Event>, call: string): set<nat> { set i: nat | i < |log| && Barrier(log[i], call) }

  function DeferralSet(log: seq<Event>, call: string): set<nat> { set i: nat | i < |log| && Deferred(log[i], call) }

  lemma BarrierSetSnoc(log: seq<Event>, call: string)
    requires |log| > 0
    ensures BarrierSet(log, call)
         == BarrierSet(log[..|log| - 1], call) + (if Barrier(log[|log| - 1], call) then {|log| - 1} else {})
  {
  }

  lemma DeferralSetSnoc(log: seq<Event>, call: string)
    requires |log| > 0
    ensures DeferralSet(log, call)
         == DeferralSet(log[..|log| - 1], call) + (if Deferred(log[|log| - 1], call) then {|log| - 1} else {})
  {
  }

  lemma BarrierCountStep(v: View, e: Event, call: string)
    ensures NextView(v, e, call).dispatches + NextView(v, e, call).resumes
         == v.dispatches + v.resumes + (if Barrier(e, call) then 1 else 0)
  {
  }

  lemma DeferralCountStep(v: View, e: Event, call: string)
    ensures NextView(v, e, call).deferrals == v.deferrals + (if Deferred(e, call) then 1 else 0)
  {
  }

  lemma {:induction false} BarriersCounted(log: seq<Event>, call: string)
    ensures |BarrierSet(log, call)| == ViewOf(log, call).dispatches + ViewOf(log, call).resumes
  {
    if |log| > 0 {
      BarriersCounted(log[..|log| - 1], call);
      BarrierSetSnoc(log, call);
      BarrierCountStep(ViewOf(log[..|log| - 1], call), log[|log| - 1], call);
    }
  }

  lemma {:induction false} DeferralsCounted(log: seq<Event>, call: string)
    ensures |DeferralSet(log, call)| == ViewOf(log, call).deferrals
  {
    if |log| > 0 {
      DeferralsCounted(log[..|log| - 1], call);
      DeferralSetSnoc(log, call);
      DeferralCountStep(ViewOf(log[..|log| - 1], call), log[|log| - 1], call);
    }
  }

  // ---------------------------------------------------------------- how often a call runs

  function ExecCount(execs: seq<Exec>, call: string): nat {
    if |execs| == 0 then 0
    else ExecCount(execs[..|execs| - 1], call) + if execs[|execs| - 1].call == call then 1 else 0
  }

  /** How often it ran without a barrier on the log. */
  function BareCount(execs: seq<Exec>, call: string): nat {
    if |execs| == 0 then 0
    else BareCount(execs[..|execs| - 1], call) + if execs[|execs| - 1].call == call && execs[|execs| - 1].barrier.None? then 1 else 0
  }

  function ExecBarriers(execs: seq<Exec>, call: string): set<nat> {
    set i | 0 <= i < |execs| && execs[i].call == call && execs[i].barrier.Some? :: execs[i].barrier.value
  }

  function OwnBarrier(x: Exec, call: string): set<nat> { if x.call == call && x.barrier.Some? then {x.barrier.value} else {} }

  lemma ExecBarriersSnoc(execs: seq<Exec>, call: string)
    requires |execs| > 0
    ensures ExecBarriers(execs, call) == ExecBarriers(execs[..|execs| - 1], call) + OwnBarrier(execs[|execs| - 1], call)
  {
    var before := execs[..|execs| - 1];
    assert forall i :: 0 <= i < |before| ==> execs[i] == before[i];
  }

  lemma {:induction false} ExecsCounted(execs: seq<Exec>, call: string)
    requires DistinctBarriers(execs)
    ensures |ExecBarriers(execs, call)| + BareCount(execs, call) == ExecCount(execs, call)
  {
    if |execs| > 0 {
      ExecsCounted(execs[..|execs| - 1], call);
      ExecBarriersSnoc(execs, call);
      assert OwnBarrier(execs[|execs| - 1], call) !! ExecBarriers(execs[..|execs| - 1], call);
    }
  }

  /** At most once per durable permission: in every run, with crashes, lost leases and stale workers
      anywhere, a call executes under barriers at most once more often than it was deferred. */
  lemma ExecutionsAreBounded(sid: string, steps: seq<Step>, call: string)
    requires call != ""
    ensures var s := Run(sid, steps);
            ExecCount(s.execs, call) <= 1 + |DeferralSet(s.log, call)| + BareCount(s.execs, call)
  {
    var s := Run(sid, steps);
    RunKeeps(sid, steps);
    assert CallOk(s.log, call);
    BarriersCounted(s.log, call);
    DeferralsCounted(s.log, call);
    ExecsCounted(s.execs, call);
    forall b | b in ExecBarriers(s.execs, call) ensures b in BarrierSet(s.log, call) {
      var i :| 0 <= i < |s.execs| && s.execs[i].call == call && s.execs[i].barrier == Some(b);
      assert ExecOk(s.log, s.execs[i]);
    }
    SubsetSize(ExecBarriers(s.execs, call), BarrierSet(s.log, call));
  }

  // ---------------------------------------------------------------- settling

  /** Events that only an unsettled call may have. */
  predicate Moves(e: Event, call: string) {
    e.call == call && IsLifecycle(e.payload) && !e.payload.ToolCall? && !IsApproval(e.payload)
  }

  lemma {:induction false} ResultIsCounted(log: seq<Event>, call: string, i: nat)
    requires i < |log| && log[i].call == call && log[i].payload.ToolResult?
    ensures ViewOf(log, call).results > 0
    decreases |log|
  {
    if i < |log| - 1 {
      ResultIsCounted(log[..|log| - 1], call, i);
    }
  }

  lemma {:induction false} NothingFollows(log: seq<Event>, call: string, i: nat, j: nat)
    requires !ViewOf(log, call).late && i < j < |log|
    requires log[i].call == call && log[i].payload.ToolResult?
    ensures !Moves(log[j], call)
    decreases |log|
  {
    var before := log[..|log| - 1];
    if j < |log| - 1 {
      NothingFollows(before, call, i, j);
    } else {
      ResultIsCounted(before, call, i);
    }
  }

  /** A settled call stays settled: in every run it has at most one result, and no lifecycle event of it
      follows that result on the log but approval records: a decision may arrive at any time. Events that
      are no part of a lifecycle, as the record of a loaded skill, may follow too. */
  lemma SettledOnce(sid: string, steps: seq<Step>, call: string, i: nat, j: nat)
    requires call != "" && i < j < |Run(sid, steps).log|
    requires Run(sid, steps).log[i].call == call && Run(sid, steps).log[i].payload.ToolResult?
    ensures !Moves(Run(sid, steps).log[j], call)
  {
    RunKeeps(sid, steps);
    assert CallOk(Run(sid, steps).log, call);
    NothingFollows(Run(sid, steps).log, call, i, j);
  }

  // ---------------------------------------------------------------- what recovery cannot see

  predicate Settles(p: Payload) { p.ToolResult? || p.ToolDeferred? || p == ToolResumeStarted(true) }

  /** The barrier at `i` may have started a body, and no record of its outcome or of a wait follows. */
  ghost predicate UnsettledAt(log: seq<Event>, call: string, i: nat) {
    && i < |log| && log[i].call == call && StartsBody(log[i].payload)
    && forall j :: i < j < |log| && log[j].call == call ==> !Settles(log[j].payload)
  }

  /** The call may have started and its outcome is not on the log. */
  ghost predicate StartedUnsettled(log: seq<Event>, call: string) { exists i: nat :: UnsettledAt(log, call, i) }

  ghost predicate AskedAfter(log: seq<Event>, call: string, i: nat) {
    exists j :: i < j < |log| && log[j].call == call && log[j].payload.ApprovalRequested?
  }

  /** Such a call whose every unsettled barrier is followed by an approval request. */
  ghost predicate Hidden(log: seq<Event>, call: string) {
    StartedUnsettled(log, call) && forall i: nat :: UnsettledAt(log, call, i) ==> AskedAfter(log, call, i)
  }

  lemma UnaccountedMeans(log: seq<Event>, call: string, i: nat)
    ensures Unaccounted(log, call, i) <==> UnsettledAt(log, call, i) && !AskedAfter(log, call, i)
  {
  }

  /** The recovery fold sees an unsettled call exactly when it is not hidden. */
  lemma DanglingIsUnhidden(log: seq<Event>, call: string)
    requires call != ""
    ensures call in Dangling(log) <==> StartedUnsettled(log, call) && !Hidden(log, call)
  {
    DanglingExactly(log, call);
    forall i: nat ensures Unaccounted(log, call, i) <==> UnsettledAt(log, call, i) && !AskedAfter(log, call, i) {
      UnaccountedMeans(log, call, i);
    }
  }

  /** A recovery tail leaves a call alone unless it gives it a result, which settles everything. */
  lemma UnsettledAfter(log: seq<Event>, after: seq<Event>, call: string, i: nat)
    requires RecoveryTail(log, after)
    ensures UnsettledAt(after, call, i) <==> UnsettledAt(log, call, i) && !TailHasResult(log, after, call)
  {
    forall k | 0 <= k < |log| ensures after[k] == log[k] {}
    if TailHasResult(log, after, call) {
      var r :| |log| <= r < |after| && after[r].payload.ToolResult? && after[r].call == call;
      assert Settles(after[r].payload);
    }
    if UnsettledAt(log, call, i) && !TailHasResult(log, after, call) {
      forall j | i < j < |after| && after[j].call == call ensures !Settles(after[j].payload) {
        assert j >= |log| ==> RecoveryKind(after[j]);
      }
    }
  }

  lemma StartedAfter(log: seq<Event>, after: seq<Event>, call: string)
    requires RecoveryTail(log, after)
    ensures StartedUnsettled(after, call) <==> StartedUnsettled(log, call) && !TailHasResult(log, after, call)
  {
    forall i: nat ensures UnsettledAt(after, call, i) <==> UnsettledAt(log, call, i) && !TailHasResult(log, after, call) {
      UnsettledAfter(log, after, call, i);
    }
  }

  /** What recovery leaves unsettled, of any log: the started calls that a later approval request
      hides from it, and those whose recovery id was used. */
  lemma RecoveryLeavesUnsettled(log: seq<Event>, sid: string, call: string)
    requires call != ""
    ensures StartedUnsettled(Recovered(log, sid), call) <==>
              Hidden(log, call) || (StartedUnsettled(log, call) && RecoverUnknown(call) in Ids(log))
  {
    RecoveredTail(log, sid);
    StartedAfter(log, Recovered(log, sid), call);
    TailResultExactly(log, sid, call);
    DanglingIsUnhidden(log, call);
  }

  /** In every run, recovery leaves no call dangling, for its ids are always unused; the started
      calls it leaves unsettled are exactly those hidden by an approval request. */
  lemma RecoveryAlwaysSettles(sid: string, steps: seq<Step>, f: nat, call: string)
    requires call != "" && Enabled(Run(sid, steps), sid, Recover(f))
    ensures Dangling(Next(Run(sid, steps), sid, Recover(f)).log) == []
    ensures StartedUnsettled(Next(Run(sid, steps), sid, Recover(f)).log, call) <==> Hidden(Run(sid, steps).log, call)
  {
    var log := Run(sid, steps).log;
    RunKeeps(sid, steps);
    RecoverKeepsLog(log, sid);
    DanglingIsUnhidden(log, call);
    DanglingIsUnhidden(Recovered(log, sid), call);
    RecoveryLeavesUnsettled(log, sid, call);
    if StartedUnsettled(log, call) && RecoverUnknown(call) in Ids(log) && !Hidden(log, call) {
      UnusedWhileDangling(log, call);
    }
  }

  lemma UnusedWhileDangling(log: seq<Event>, call: string)
    requires LogOk(log) && call in Dangling(log)
    ensures RecoverUnknown(call) !in Ids(log)
  {
    DanglingByState(log);
    assert CallOk(log, call);
  }

  // ---------------------------------------------------------------- separation

  /** Between any two barriers of a call lies a durable deferral. */
  ghost predicate Separated(log: seq<Event>, call: string) {
    forall i, j :: 0 <= i < j < |log| && Barrier(log[i], call) && Barrier(log[j], call) ==> DeferredBetween(log, call, i, j)
  }

  ghost predicate DeferredBetween(log: seq<Event>, call: string, i: nat, j: nat)
    requires j <= |log|
  {
    exists d :: i < d < j && Deferred(log[d], call)
  }

  /** Some barrier of the call has no deferral after it. */
  ghost predicate BarrierOpen(log: seq<Event>, call: string) {
    exists i: nat :: OpenAt(log, call, i)
  }

  lemma BetweenPrefix(log: seq<Event>, call: string, i: nat, j: nat)
    requires |log| > 0 && j <= |log| - 1
    ensures DeferredBetween(log[..|log| - 1], call, i, j) <==> DeferredBetween(log, call, i, j)
  {
    var before := log[..|log| - 1];
    if DeferredBetween(log, call, i, j) {
      var d :| i < d < j && Deferred(log[d], call);
      assert before[d] == log[d];
    }
    if DeferredBetween(before, call, i, j) {
      var d :| i < d < j && Deferred(before[d], call);
      assert before[d] == log[d];
    }
  }

  lemma OpenStep(log: seq<Event>, call: string, i: nat)
    requires |log| > 0 && i < |log| - 1
    ensures DeferredBetween(log, call, i, |log|) <==> DeferredBetween(log, call, i, |log| - 1) || Deferred(log[|log| - 1], call)
  {
    if DeferredBetween(log, call, i, |log|) {
      var d :| i < d < |log| && Deferred(log[d], call);
      if d < |log| - 1 { assert DeferredBetween(log, call, i, |log| - 1); }
    }
  }

  /** The barrier at `i` has no deferral after it. */
  ghost predicate OpenAt(log: seq<Event>, call: string, i: nat) {
    i < |log| && Barrier(log[i], call) && !DeferredBetween(log, call, i, |log|)
  }

  lemma OpenAtSnoc(log: seq<Event>, call: string, i: nat)
    requires |log| > 0 && i < |log| - 1
    ensures OpenAt(log, call, i) <==> OpenAt(log[..|log| - 1], call, i) && !Deferred(log[|log| - 1], call)
  {
    BetweenPrefix(log, call, i, |log| - 1);
    OpenStep(log, call, i);
  }

  /** `open` says what it should. */
  lemma {:induction false} OpenExactly(log: seq<Event>, call: string)
    ensures ViewOf(log, call).open <==> BarrierOpen(log, call)
  {
    if |log| > 0 {
      var before, last := log[..|log| - 1], |log| - 1;
      OpenExactly(before, call);
      if BarrierOpen(before, call) {
        var i: nat :| OpenAt(before, call, i);
        OpenAtSnoc(log, call, i);
      }
      if BarrierOpen(log, call) {
        var i: nat :| OpenAt(log, call, i);
        if i < last { OpenAtSnoc(log, call, i); }
      }
      if Barrier(log[last], call) {
        assert OpenAt(log, call, last);
      }
    }
  }

  /** `split` says exactly that two barriers lack a deferral between them. */
  lemma {:induction false} SplitExactly(log: seq<Event>, call: string)
    ensures !ViewOf(log, call).split <==> Separated(log, call)
  {
    if |log| > 0 {
      var before, last := log[..|log| - 1], |log| - 1;
      SplitExactly(before, call);
      OpenExactly(before, call);
      forall i: nat, j: nat | j < |before| ensures DeferredBetween(before, call, i, j) <==> DeferredBetween(log, call, i, j) {
        BetweenPrefix(log, call, i, j);
      }
      SeparatedStep(log, call);
    }
  }

  lemma SeparatedStep(log: seq<Event>, call: string)
    requires |log| > 0
    ensures Separated(log, call)
       <==> Separated(log[..|log| - 1], call) && !(Barrier(log[|log| - 1], call) && BarrierOpen(log[..|log| - 1], call))
  {
    var before, last := log[..|log| - 1], |log| - 1;
    forall i: nat, j: nat | j <= last ensures DeferredBetween(before, call, i, j) <==> DeferredBetween(log, call, i, j) {
      BetweenPrefix(log, call, i, j);
    }
    if Barrier(log[last], call) && BarrierOpen(before, call) {
      var i: nat :| OpenAt(before, call, i);
      assert Barrier(log[i], call) && !DeferredBetween(log, call, i, last);
    }
    if Separated(log, call) {
      forall i, j | 0 <= i < j < |before| && Barrier(before[i], call) && Barrier(before[j], call)
        ensures DeferredBetween(before, call, i, j)
      {
        assert log[i] == before[i] && log[j] == before[j];
      }
    }
    if Separated(before, call) && !(Barrier(log[last], call) && BarrierOpen(before, call)) {
      forall i, j | 0 <= i < j < |log| && Barrier(log[i], call) && Barrier(log[j], call)
        ensures DeferredBetween(log, call, i, j)
      {
        assert before[i] == log[i];
        if j < last { assert before[j] == log[j]; } else { assert !OpenAt(before, call, i); }
      }
    }
  }

  /** A barrier of the call is due while another is open. */
  predicate OverOpen(s: Sys, sid: string, step: Step, call: string) {
    (step.Dispatch? || step.ResumeCall?) && step.e.call == call && Enabled(s, sid, step) && ViewOf(s.log, call).open
  }

  /** The steps that write two barriers without a deferral between them. */
  predicate Careless(s: Sys, sid: string, step: Step, call: string) {
    OverOpen(s, sid, step, call) && Added(s, step).Some?
  }

  lemma SplitMoves(v: View, e: Event, call: string)
    ensures NextView(v, e, call).split <==> v.split || (Barrier(e, call) && v.open)
  {
  }

  lemma SplitByWrite(log: seq<Event>, sid: string, e: Event, call: string)
    ensures ViewOf(Write(log, sid, e), call).split <==> ViewOf(log, call).split || (Barrier(e, call) && ViewOf(log, call).open)
  {
    ViewSnoc(log, sid, e, call);
    SplitMoves(ViewOf(log, call), e, call);
  }

  /** The event a step is to write, if any. */
  function Written(step: Step): Option<Event> {
    match step
    case Admit(_, e) => Some(e)
    case Dispatch(_, e) => Some(e)
    case Running(_, e) => Some(e)
    case ResumeCall(_, _, e) => Some(e)
    case Materialize(_, _, e) => Some(e)
    case Settle(_, e) => Some(e)
    case Defer(_, e) => Some(e)
    case Ask(_, e) => Some(e)
    case Answer(e) => Some(e)
    case Note(_, e) => Some(e)
    case Other(_, e) => Some(e)
    case Past(e) => Some(e)
    case _ => None
  }

  /** The event it adds: none when the log holds the id its emitter draws. */
  function Added(s: Sys, step: Step): Option<Event> {
    if Written(step).None? || EmitterOf(s, step).None? then Written(step)
    else if Swallows(s.log, EmitterOf(s, step).value) then None
    else Some(Named(EmitterOf(s, step).value, Written(step).value))
  }

  lemma LogAfter(s: Sys, sid: string, step: Step)
    requires Enabled(s, sid, step)
    ensures Next(s, sid, step).log == if Added(s, step).Some? then Write(s.log, sid, Added(s, step).value)
                                      else if step.Recover? then Recovered(s.log, sid) else s.log
    ensures Added(s, step).Some? ==> Written(step).Some?
    ensures Added(s, step).Some? ==> Added(s, step).value.call == Written(step).value.call
    ensures Added(s, step).Some? ==> Added(s, step).value.payload == Written(step).value.payload
  {
  }

  lemma BarrierWriters(s: Sys, sid: string, step: Step, call: string)
    requires Enabled(s, sid, step) && Added(s, step).Some? && Barrier(Added(s, step).value, call)
    ensures step.Dispatch? || step.ResumeCall?
  {
  }

  lemma RecoveryKeepsSplit(log: seq<Event>, sid: string, call: string)
    requires call != ""
    ensures ViewOf(Recovered(log, sid), call).split == ViewOf(log, call).split
  {
    RecoveredTail(log, sid);
    BatchDistinct(log, sid);
    TailIsDistinct(log, sid, RecoveryEvents(log, sid));
    ViewAfter(log, Recovered(log, sid), call);
  }

  lemma SplitStep(s: Sys, sid: string, step: Step, call: string)
    requires SysOk(s) && call != ""
    ensures ViewOf(Take(s, sid, step).log, call).split <==> ViewOf(s.log, call).split || Careless(s, sid, step, call)
  {
    if Enabled(s, sid, step) {
      LogAfter(s, sid, step);
      if Added(s, step).Some? {
        var e := Added(s, step).value;
        SplitByWrite(s.log, sid, e, call);
        if Barrier(e, call) {
          BarrierWriters(s, sid, step, call);
        }
      } else if step.Recover? {
        RecoveryKeepsSplit(s.log, sid, call);
      }
    }
  }

  /** A step whose write changes nothing leaves the log as it is. */
  lemma NothingAdded(s: Sys, sid: string, step: Step)
    requires Enabled(s, sid, step) && Added(s, step).None? && !step.Recover?
    ensures Next(s, sid, step).log == s.log
  {
    LogAfter(s, sid, step);
  }

  /** No step of the whole run was careless with the call. */
  ghost predicate CarefulRun(sid: string, steps: seq<Step>, call: string) {
    forall n :: 0 <= n < |steps| ==> !Careless(Run(sid, steps[..n]), sid, steps[n], call)
  }

  lemma CarefulSnoc(sid: string, steps: seq<Step>, call: string)
    requires |steps| > 0
    ensures CarefulRun(sid, steps, call)
       <==> CarefulRun(sid, steps[..|steps| - 1], call) && !Careless(Run(sid, steps[..|steps| - 1]), sid, steps[|steps| - 1], call)
  {
    var before := steps[..|steps| - 1];
    forall n | 0 <= n < |before| ensures before[..n] == steps[..n] && before[n] == steps[n] {}
    if CarefulRun(sid, steps, call) {
      forall n | 0 <= n < |before| ensures !Careless(Run(sid, before[..n]), sid, before[n], call) {
        assert !Careless(Run(sid, steps[..n]), sid, steps[n], call);
      }
    }
    if CarefulRun(sid, before, call) && !Careless(Run(sid, before), sid, steps[|steps| - 1], call) {
      forall n | 0 <= n < |steps| ensures !Careless(Run(sid, steps[..n]), sid, steps[n], call) {
        if n < |before| { assert !Careless(Run(sid, before[..n]), sid, before[n], call); }
      }
    }
  }

  /** A durable deferral lies between any two barriers of a call exactly when neither a dispatch nor
      a resume of the call was written over an open barrier. */
  lemma {:induction false} SeparatedExactly(sid: string, steps: seq<Step>, call: string)
    requires call != ""
    ensures Separated(Run(sid, steps).log, call) <==> CarefulRun(sid, steps, call)
  {
    SplitExactly(Run(sid, steps).log, call);
    if |steps| > 0 {
      var before := steps[..|steps| - 1];
      SeparatedExactly(sid, before, call);
      SplitExactly(Run(sid, before).log, call);
      RunKeeps(sid, before);
      SplitStep(Run(sid, before), sid, steps[|steps| - 1], call);
      CarefulSnoc(sid, steps, call);
    }
  }

  // ---------------------------------------------------------------- when a barrier is written over an open one

  /** An open barrier that an approval request follows. */
  ghost predicate HiddenBarrier(log: seq<Event>, call: string) {
    exists i: nat :: OpenAt(log, call, i) && AskedAfter(log, call, i)
  }

  lemma {:induction false} WaitingSince(log: seq<Event>, call: string) returns (d: nat)
    requires ViewOf(log, call).waiting
    ensures d < |log| && Deferred(log[d], call)
    ensures forall j :: d < j < |log| && log[j].call == call ==> !log[j].payload.ToolResumeStarted?
  {
    var before, last := log[..|log| - 1], log[|log| - 1];
    if Deferred(last, call) {
      d := |log| - 1;
    } else {
      d := WaitingSince(before, call);
      assert forall j :: 0 <= j < |before| ==> before[j] == log[j];
    }
  }

  /** A waiting, unsettled call that recovery leaves alone has an open barrier only if an approval
      request hides it. */
  lemma OpenWaitIsHidden(log: seq<Event>, call: string)
    requires call != "" && ViewOf(log, call).waiting && ViewOf(log, call).results == 0 && call !in Dangling(log)
    ensures ViewOf(log, call).open <==> HiddenBarrier(log, call)
  {
    OpenExactly(log, call);
    if BarrierOpen(log, call) {
      var i: nat :| OpenAt(log, call, i);
      DanglingExactly(log, call);
      assert !Unaccounted(log, call, i);
      var j :| i < j < |log| && log[j].call == call && Accounts(log[j].payload);
      var d := WaitingSince(log, call);
      if log[j].payload.ToolResult? { ResultIsCounted(log, call, j); }
      assert AskedAfter(log, call, i);
    }
  }

  lemma {:induction false} NoDispatchRecorded(log: seq<Event>, call: string, i: nat)
    requires ViewOf(log, call).dispatches == 0 && i < |log| && log[i].call == call
    ensures !log[i].payload.ToolDispatched?
    decreases |log|
  {
    if i < |log| - 1 {
      NoDispatchRecorded(log[..|log| - 1], call, i);
    }
  }

  /** The open barrier of a call is that of a resume. */
  ghost predicate OpenResume(log: seq<Event>, call: string) {
    exists i: nat :: OpenAt(log, call, i) && log[i].payload == ToolResumeStarted(false)
  }

  /** When a barrier is due while another is open: of a resume exactly when an approval request after
      the open one kept recovery from settling the call, of a dispatch exactly when the open one is that
      of an earlier resume, which the approval guard does not look for. It is written unless the log
      holds its id. */
  lemma CarelessExactly(sid: string, steps: seq<Step>, step: Step, call: string)
    requires call != "" && (step.Dispatch? || step.ResumeCall?) && step.e.call == call
    requires Enabled(Run(sid, steps), sid, step)
    ensures step.ResumeCall? ==> (OverOpen(Run(sid, steps), sid, step, call) <==> HiddenBarrier(Run(sid, steps).log, call))
    ensures step.Dispatch? ==> (OverOpen(Run(sid, steps), sid, step, call) <==> OpenResume(Run(sid, steps).log, call))
    ensures EmitterOf(Run(sid, steps), step).Some?
    ensures Careless(Run(sid, steps), sid, step, call)
       <==> OverOpen(Run(sid, steps), sid, step, call) && !Swallows(Run(sid, steps).log, EmitterOf(Run(sid, steps), step).value)
  {
    var s := Run(sid, steps);
    RunKeeps(sid, steps);
    if step.ResumeCall? {
      ResumableWaits(s, step.f, call, step.key);
      OpenWaitIsHidden(s.log, call);
    } else {
      OpenExactly(s.log, call);
      QueuedOpensByResume(s, step.f, call);
    }
  }

  lemma QueuedOpensByResume(s: Sys, f: nat, call: string)
    requires SysOk(s) && f == s.fence && Job(s, f, call) == Some(Queued)
    ensures BarrierOpen(s.log, call) <==> OpenResume(s.log, call)
  {
    assert PhaseOk(ViewOf(s.log, call), Queued);
    if BarrierOpen(s.log, call) {
      var i: nat :| OpenAt(s.log, call, i);
      NoDispatchRecorded(s.log, call, i);
    }
  }

  // ---------------------------------------------------------------- the missing check

  /** The check both guards lack: no barrier of the call, resume barriers included, since its last
      deferral. */
  predicate Checked(s: Sys, sid: string, step: Step, call: string) {
    && (step.Approve? && step.call == call && Enabled(s, sid, step) ==> !ViewOf(s.workers[step.f].cache.value, call).open)
    && (step.ResumeCall? && step.e.call == call && Enabled(s, sid, step) ==> !ViewOf(s.workers[step.f].cache.value, call).open)
  }

  ghost predicate CheckedRun(sid: string, steps: seq<Step>, call: string) {
    forall n :: 0 <= n < |steps| ==> Checked(Run(sid, steps[..n]), sid, steps[n], call)
  }

  /** A queued call of the lease holder has no open barrier. */
  ghost predicate QueuedClosed(s: Sys, call: string) {
    IsQueued(s, call) ==> !ViewOf(s.log, call).open
  }

  predicate IsQueued(s: Sys, call: string) {
    s.fence in s.workers && call in s.workers[s.fence].jobs && s.workers[s.fence].jobs[call].Queued?
  }

  lemma QueuedWhence(s: Sys, sid: string, step: Step, call: string)
    requires Enabled(s, sid, step) && IsQueued(Next(s, sid, step), call)
    ensures (step.Admit? && step.e.call == call) || (step.Approve? && step.call == call) || IsQueued(s, call)
  {
  }

  lemma NoBarrierWhileQueued(s: Sys, sid: string, step: Step, call: string)
    requires Enabled(s, sid, step) && IsQueued(Next(s, sid, step), call) && Added(s, step).Some?
    ensures !Barrier(Added(s, step).value, call)
  {
    if Barrier(Added(s, step).value, call) { BarrierWriters(s, sid, step, call); }
  }

  /** A call is queued by its admission or by an approved resume, and stays so while only
      approvals and unrelated events are written. */
  lemma QueuedAfter(s: Sys, sid: string, step: Step, call: string)
    requires SysOk(s) && Enabled(s, sid, step) && IsQueued(Next(s, sid, step), call)
    ensures (step.Admit? && step.e.call == call) || (step.Approve? && step.call == call) || IsQueued(s, call)
    ensures Added(s, step).Some? ==> !(step.Admit? && step.e.call == call) ==> !Barrier(Added(s, step).value, call)
    ensures !step.Recover?
  {
    QueuedWhence(s, sid, step, call);
    if Added(s, step).Some? { NoBarrierWhileQueued(s, sid, step, call); }
  }

  lemma AdmittedView(s: Sys, sid: string, f: nat, e: Event)
    requires Enabled(s, sid, Admit(f, e))
    ensures !ViewOf(Next(s, sid, Admit(f, e)).log, e.call).open && !ViewOf(Next(s, sid, Admit(f, e)).log, e.call).waiting
  {
    Unmentioned(s.log, e.call);
    LogAfter(s, sid, Admit(f, e));
    if Added(s, Admit(f, e)).Some? { ViewSnoc(s.log, sid, Added(s, Admit(f, e)).value, e.call); }
  }

  lemma QueuedStep(s: Sys, sid: string, step: Step, call: string)
    requires SysOk(s) && call != "" && QueuedClosed(s, call) && Checked(s, sid, step, call)
    ensures QueuedClosed(Take(s, sid, step), call)
  {
    if Enabled(s, sid, step) && IsQueued(Next(s, sid, step), call) {
      LogAfter(s, sid, step);
      QueuedAfter(s, sid, step, call);
      if step.Admit? && step.e.call == call {
        AdmittedView(s, sid, step.f, step.e);
      } else if Added(s, step).Some? {
        ViewSnoc(s.log, sid, Added(s, step).value, call);
      } else if step.Approve? && step.call == call {
        ApprovedIsClosed(s, sid, step, call);
      }
    }
  }

  lemma ApprovedIsClosed(s: Sys, sid: string, step: Step, call: string)
    requires SysOk(s) && step.Approve? && step.call == call && Enabled(s, sid, step) && Checked(s, sid, step, call)
    ensures IsQueued(Next(s, sid, step), call) ==> step.f == s.fence || IsQueued(s, call)
    ensures step.f == s.fence ==> !ViewOf(s.log, call).open
  {
    if step.f == s.fence {
      SameRecords(s.workers[step.f].cache.value, s.log, call, "");
    }
  }

  lemma QueuedIsCareful(s: Sys, sid: string, step: Step, call: string)
    requires SysOk(s) && QueuedClosed(s, call) && Checked(s, sid, step, call)
    ensures !OverOpen(s, sid, step, call)
  {
    if step.ResumeCall? && Enabled(s, sid, step) {
      SameRecords(s.workers[step.f].cache.value, s.log, call, "");
    }
  }

  lemma {:induction false} CheckedIsCareful(sid: string, steps: seq<Step>, call: string)
    requires call != "" && CheckedRun(sid, steps, call)
    ensures CarefulRun(sid, steps, call) && QueuedClosed(Run(sid, steps), call)
  {
    if |steps| > 0 {
      var before := steps[..|steps| - 1];
      forall n | 0 <= n < |before| ensures Checked(Run(sid, before[..n]), sid, before[n], call) {
        assert before[..n] == steps[..n] && before[n] == steps[n];
        assert Checked(Run(sid, steps[..n]), sid, steps[n], call);
      }
      CheckedIsCareful(sid, before, call);
      RunKeeps(sid, before);
      assert Checked(Run(sid, steps[..|before|]), sid, steps[|before|], call);
      QueuedStep(Run(sid, before), sid, steps[|steps| - 1], call);
      QueuedIsCareful(Run(sid, before), sid, steps[|steps| - 1], call);
      CarefulSnoc(sid, steps, call);
    }
  }

  /** With that check a durable deferral lies between any two executions of a call that ran under
      barriers. */
  lemma ExecutionsAreSeparated(sid: string, steps: seq<Step>, call: string, i: nat, j: nat)
    requires call != "" && CheckedRun(sid, steps, call)
    requires i < |Run(sid, steps).execs| && j < |Run(sid, steps).execs|
    requires Run(sid, steps).execs[i].call == call && Run(sid, steps).execs[j].call == call
    requires Run(sid, steps).execs[i].barrier.Some? && Run(sid, steps).execs[j].barrier.Some?
    requires Run(sid, steps).execs[i].barrier.value < Run(sid, steps).execs[j].barrier.value
    ensures Run(sid, steps).execs[j].barrier.value < |Run(sid, steps).log|
    ensures DeferredBetween(Run(sid, steps).log, call, Run(sid, steps).execs[i].barrier.value, Run(sid, steps).execs[j].barrier.value)
  {
    var s := Run(sid, steps);
    CheckedIsCareful(sid, steps, call);
    SeparatedExactly(sid, steps, call);
    RunKeeps(sid, steps);
    assert ExecOk(s.log, s.execs[i]) && ExecOk(s.log, s.execs[j]);
    assert Barrier(s.log[s.execs[i].barrier.value], call) && Barrier(s.log[s.execs[j].barrier.value], call);
  }

  // ---------------------------------------------------------------- runs without approved resumes

  /** Without an approved resume a call is dispatched only before its first deferral. */
  ghost predicate DispatchedFirst(s: Sys, call: string) {
    && (IsQueued(s, call) ==> !ViewOf(s.log, call).open && !ViewOf(s.log, call).waiting)
    && (ViewOf(s.log, call).waiting ==> !ViewOf(s.log, call).open)
  }

  lemma FirstAfterWrite(v: View, e: Event, call: string)
    requires v.waiting ==> !v.open
    requires e.call == call && e.payload.ToolDispatched? ==> !v.waiting
    ensures NextView(v, e, call).waiting ==> !NextView(v, e, call).open
  {
  }

  lemma DispatchIsQueued(s: Sys, sid: string, step: Step, call: string)
    requires Enabled(s, sid, step) && Added(s, step).Some? && Added(s, step).value.call == call && Added(s, step).value.payload.ToolDispatched?
    ensures IsQueued(s, call)
  {
  }

  lemma NoDeferralWhileQueued(s: Sys, sid: string, step: Step, call: string)
    requires Enabled(s, sid, step) && Added(s, step).Some? && Deferred(Added(s, step).value, call)
    ensures !IsQueued(Next(s, sid, step), call)
  {
  }

  lemma FirstStep(s: Sys, sid: string, step: Step, call: string)
    requires SysOk(s) && call != "" && DispatchedFirst(s, call) && !(step.Approve? && step.call == call)
    ensures DispatchedFirst(Take(s, sid, step), call) && !OverOpen(s, sid, step, call)
  {
    if Enabled(s, sid, step) {
      LogAfter(s, sid, step);
      if IsQueued(Next(s, sid, step), call) { QueuedAfter(s, sid, step, call); }
      if Added(s, step).Some? {
        FirstWrite(s, sid, step, call);
      } else if step.Recover? {
        RecoveryKeepsWait(s.log, sid, call);
      } else if step.Admit? && step.e.call == call {
        AdmittedView(s, sid, step.f, step.e);
      }
      if step.ResumeCall? && step.e.call == call { ResumableWaits(s, step.f, call, step.key); }
    }
  }

  lemma FirstWrite(s: Sys, sid: string, step: Step, call: string)
    requires SysOk(s) && call != "" && DispatchedFirst(s, call) && Enabled(s, sid, step) && Added(s, step).Some?
    ensures DispatchedFirst(Next(s, sid, step), call)
  {
    var e := Added(s, step).value;
    LogAfter(s, sid, step);
    ViewSnoc(s.log, sid, e, call);
    if e.call == call && e.payload.ToolDispatched? { DispatchIsQueued(s, sid, step, call); }
    FirstAfterWrite(ViewOf(s.log, call), e, call);
    if IsQueued(Next(s, sid, step), call) {
      QueuedAfter(s, sid, step, call);
      if step.Admit? && e.call == call {
        AdmittedView(s, sid, step.f, step.e);
      } else if Deferred(e, call) {
        NoDeferralWhileQueued(s, sid, step, call);
      }
    }
  }

  lemma RecoveryKeepsWait(log: seq<Event>, sid: string, call: string)
    requires call != ""
    ensures ViewOf(Recovered(log, sid), call).waiting == ViewOf(log, call).waiting
    ensures ViewOf(Recovered(log, sid), call).open == ViewOf(log, call).open
  {
    RecoveredTail(log, sid);
    BatchDistinct(log, sid);
    TailIsDistinct(log, sid, RecoveryEvents(log, sid));
    ViewAfter(log, Recovered(log, sid), call);
  }

  ghost predicate NeverApproved(steps: seq<Step>, call: string) {
    forall n :: 0 <= n < |steps| && steps[n].Approve? ==> steps[n].call != call
  }

  /** A run in which the call is never resumed after an approval is careful, so a deferral lies
      between any two of its barriers: resumes alone never write over an open barrier. */
  lemma {:induction false} NoApprovalIsCareful(sid: string, steps: seq<Step>, call: string)
    requires call != "" && NeverApproved(steps, call)
    ensures CarefulRun(sid, steps, call) && DispatchedFirst(Run(sid, steps), call)
    ensures Separated(Run(sid, steps).log, call)
  {
    if |steps| > 0 {
      var before := steps[..|steps| - 1];
      NoApprovalIsCareful(sid, before, call);
      RunKeeps(sid, before);
      FirstStep(Run(sid, before), sid, steps[|steps| - 1], call);
      CarefulSnoc(sid, steps, call);
    }
    SeparatedExactly(sid, steps, call);
  }

  // ---------------------------------------------------------------- runs whose approvals were requested

  predicate Asked(s: Sys, call: string) { ApprovalId(call, false) in Ids(s.log) }

  /** The broker resumes an approved call only if its request is on the log. */
  ghost predicate RequestedRun(sid: string, steps: seq<Step>, call: string) {
    forall n :: 0 <= n < |steps| && steps[n].Approve? && steps[n].call == call ==> Asked(Run(sid, steps[..n]), call)
  }

  /** A call dispatched while it waits was asked about before its barrier, and never again. */
  ghost predicate AskedFirst(s: Sys, call: string) {
    && (IsQueued(s, call) && ViewOf(s.log, call).waiting ==> Asked(s, call))
    && (ViewOf(s.log, call).waiting && ViewOf(s.log, call).open ==>
          Asked(s, call) && (ViewOf(s.log, call).results == 0 ==> StateOf(s.log, call) == CallDispatched))
  }

  lemma AskedGrows(s: Sys, sid: string, step: Step, call: string)
    requires Asked(s, call)
    ensures Asked(Take(s, sid, step), call)
  {
    if Enabled(s, sid, step) {
      LogAfter(s, sid, step);
      RecoveredTail(s.log, sid);
      var e :| e in s.log && e.id == ApprovalId(call, false);
      var i :| 0 <= i < |s.log| && s.log[i] == e;
      assert Take(s, sid, step).log[i] in Take(s, sid, step).log;
    }
  }

  /** How one event moves a call that is dispatched while it waits. */
  lemma AskedMoves(v: View, st: CallState, e: Event, call: string)
    requires v.waiting && v.open && v.results == 0 ==> st == CallDispatched
    requires v.waiting && v.open ==> !(e.call == call && e.payload.ApprovalRequested?)
    ensures var w := NextView(v, e, call);
            w.waiting && w.open && w.results == 0 ==> NextState(st, e, call) == CallDispatched
    ensures NextView(v, e, call).waiting && NextView(v, e, call).open ==>
              (v.waiting && v.open) || (v.waiting && e.call == call && e.payload.ToolDispatched?)
  {
  }

  lemma AskedWrite(s: Sys, sid: string, step: Step, call: string)
    requires SysOk(s) && call != "" && AskedFirst(s, call) && Enabled(s, sid, step) && Added(s, step).Some?
    ensures AskedFirst(Next(s, sid, step), call)
  {
    var e := Added(s, step).value;
    LogAfter(s, sid, step);
    ViewSnoc(s.log, sid, e, call);
    if Asked(s, call) { AskedGrows(s, sid, step, call); }
    if e.call == call && e.payload.ToolDispatched? { DispatchIsQueued(s, sid, step, call); }
    AskedMoves(ViewOf(s.log, call), StateOf(s.log, call), e, call);
    if IsQueued(Next(s, sid, step), call) {
      QueuedAfter(s, sid, step, call);
      if step.Admit? && e.call == call {
        AdmittedView(s, sid, step.f, step.e);
      } else if Deferred(e, call) {
        NoDeferralWhileQueued(s, sid, step, call);
      }
    }
  }

  lemma AskedRecovers(s: Sys, sid: string, f: nat, call: string)
    requires SysOk(s) && call != "" && AskedFirst(s, call) && Enabled(s, sid, Recover(f))
    ensures AskedFirst(Next(s, sid, Recover(f)), call)
  {
    var after := Recovered(s.log, sid);
    if Asked(s, call) { AskedGrows(s, sid, Recover(f), call); }
    RecoveredTail(s.log, sid);
    BatchDistinct(s.log, sid);
    TailIsDistinct(s.log, sid, RecoveryEvents(s.log, sid));
    ViewAfter(s.log, after, call);
    StateAfter(s.log, after, call);
  }

  lemma AskedStep(s: Sys, sid: string, step: Step, call: string)
    requires SysOk(s) && call != "" && AskedFirst(s, call)
    requires step.Approve? && step.call == call ==> Asked(s, call)
    ensures AskedFirst(Take(s, sid, step), call)
    ensures step.ResumeCall? ==> !OverOpen(s, sid, step, call)
  {
    if Enabled(s, sid, step) {
      LogAfter(s, sid, step);
      if Added(s, step).Some? {
        AskedWrite(s, sid, step, call);
      } else if step.Recover? {
        AskedRecovers(s, sid, step.f, call);
      } else if IsQueued(Next(s, sid, step), call) {
        QueuedAfter(s, sid, step, call);
        if step.Admit? && step.e.call == call { AdmittedView(s, sid, step.f, step.e); }
      }
      if step.ResumeCall? && step.e.call == call {
        ResumableWaits(s, step.f, call, step.key);
        DanglingByState(s.log);
      }
    }
  }

  /** While approvals are resumed only for calls whose request is on the log, as the broker does, no
      resume is due over an open barrier: the request's id is used, so no later request can hide the barrier. */
  lemma {:induction false} RequestedResumesAreCareful(sid: string, steps: seq<Step>, step: Step, call: string)
    requires call != "" && RequestedRun(sid, steps, call)
    ensures AskedFirst(Run(sid, steps), call)
    ensures step.ResumeCall? ==> !OverOpen(Run(sid, steps), sid, step, call)
    decreases |steps|
  {
    if |steps| > 0 {
      var before, last := steps[..|steps| - 1], steps[|steps| - 1];
      forall n | 0 <= n < |before| && before[n].Approve? && before[n].call == call ensures Asked(Run(sid, before[..n]), call) {
        assert before[..n] == steps[..n] && before[n] == steps[n];
      }
      RequestedResumesAreCareful(sid, before, last, call);
      RunKeeps(sid, before);
      AskedStep(Run(sid, before), sid, last, call);
    }
    RunKeeps(sid, steps);
    if step.ResumeCall? { AskedStep(Run(sid, steps), sid, step, call); }
  }

  /** In such runs the check is needed at the approval alone. */
  lemma ApprovalCheckSuffices(sid: string, steps: seq<Step>, call: string)
    requires call != "" && RequestedRun(sid, steps, call)
    requires forall n :: 0 <= n < |steps| && steps[n].Approve? ==> Checked(Run(sid, steps[..n]), sid, steps[n], call)
    ensures CheckedRun(sid, steps, call)
  {
    forall n | 0 <= n < |steps| ensures Checked(Run(sid, steps[..n]), sid, steps[n], call) {
      if steps[n].ResumeCall? { ResumeIsChecked(sid, steps, n, call); }
    }
  }

  lemma ResumeIsChecked(sid: string, steps: seq<Step>, n: nat, call: string)
    requires call != "" && RequestedRun(sid, steps, call) && n < |steps| && steps[n].ResumeCall?
    ensures Checked(Run(sid, steps[..n]), sid, steps[n], call)
  {
    var before, s := steps[..n], Run(sid, steps[..n]);
    forall k | 0 <= k < n && before[k].Approve? && before[k].call == call ensures Asked(Run(sid, before[..k]), call) {
      assert before[..k] == steps[..k] && before[k] == steps[k];
    }
    RequestedResumesAreCareful(sid, before, steps[n], call);
    RunKeeps(sid, before);
    if Enabled(s, sid, steps[n]) {
      SameRecords(s.workers[steps[n].f].cache.value, s.log, call, "");
    }
  }
}
