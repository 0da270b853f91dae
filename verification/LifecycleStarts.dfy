/** When a body may start, over every run (agent/loop.go:659-680, agent/loop.go:1611-1671): only while
    its call is open in the worker that wrote the barrier, so never after that worker wrote an outcome
    or gave the call up, and never while a stored result is delivered. */
module LifecycleStarts {
  import opened Events
  import opened Deferral
  import opened Lifecycle
  import opened LifecycleInvariant
  import opened LifecycleTheorems
  import opened LifecycleGuards
  import opened RecoveryTheorems

  /** The body of a call may start in a worker: under a barrier of the call, or under none. */
  ghost predicate Startable(s: Sys, f: nat, call: string) {
    || Bare(f, call) in s.bare
    || exists b :: b in s.armed && s.armed[b] == f && b < |s.log| && s.log[b].call == call
  }

  predicate LiveUnder(s: Sys, f: nat, call: string, barrier: Option<nat>) {
    Job(s, f, call).Some? && Job(s, f, call).value.Live? && Job(s, f, call).value.barrier == barrier
  }

  ghost predicate ArmedOk(s: Sys) {
    forall b :: b in s.armed ==>
      b < |s.log| && s.armed[b] <= s.fence && (s.armed[b] in s.workers ==> LiveUnder(s, s.armed[b], s.log[b].call, Some(b)))
  }

  ghost predicate BareOk(s: Sys) {
    forall x :: x in s.bare ==> x.fence <= s.fence && (x.fence in s.workers ==> LiveUnder(s, x.fence, x.call, None))
  }

  // ---------------------------------------------------------------- steps

  /** The worker holds the same job for the call as before. */
  predicate SameJob(s: Sys, t: Sys, f: nat, call: string) { f in s.workers && Job(t, f, call) == Job(s, f, call) }

  /** What may start could start before, and its call is as open as it was. */
  ghost predicate StillStarts(s: Sys, t: Sys) {
    && s.log <= t.log && s.fence <= t.fence
    && (forall b :: b in t.armed ==> b in s.armed && t.armed[b] == s.armed[b])
    && (forall b :: b in t.armed && b < |s.log| && t.armed[b] in t.workers ==> SameJob(s, t, t.armed[b], s.log[b].call))
    && (forall x :: x in t.bare ==> x in s.bare && (x.fence in t.workers ==> SameJob(s, t, x.fence, x.call)))
  }

  lemma StartsKept(s: Sys, t: Sys)
    requires ArmedOk(s) && BareOk(s) && StillStarts(s, t)
    ensures ArmedOk(t) && BareOk(t)
  {
  }

  lemma LogGrows(s: Sys, sid: string, step: Step)
    requires Enabled(s, sid, step)
    ensures s.log <= Next(s, sid, step).log
  {
    LogAfter(s, sid, step);
    RecoveredTail(s.log, sid);
  }

  /** The steps that touch no job: of a worker's memory, of the bodies themselves, of the records that move
      no call. */
  lemma LocalStarts(s: Sys, sid: string, step: Step)
    requires ArmedOk(s) && BareOk(s) && Enabled(s, sid, step)
    requires step.Recover? || step.Refresh? || step.StartRun? || step.Continue? || step.Draw?
    ensures StillStarts(s, Next(s, sid, step))
  {
    LogGrows(s, sid, step);
  }

  lemma BodyStarts(s: Sys, sid: string, step: Step)
    requires ArmedOk(s) && BareOk(s) && Enabled(s, sid, step) && (step.Crash? || step.Execute? || step.ExecuteBare?)
    ensures StillStarts(s, Next(s, sid, step))
  {
  }

  lemma RecordStarts(s: Sys, sid: string, step: Step)
    requires ArmedOk(s) && BareOk(s) && Enabled(s, sid, step)
    requires step.Ask? || step.Answer? || step.Note? || step.Other? || step.Past?
    ensures StillStarts(s, Next(s, sid, step))
  {
    LogGrows(s, sid, step);
  }

  /** A new worker may start nothing. */
  lemma ClaimStarts(s: Sys, sid: string)
    requires ArmedOk(s) && BareOk(s)
    ensures StillStarts(s, Next(s, sid, Claim))
  {
  }

  /** The steps that open a call, or move it on before its body. */
  lemma WrittenStarts(s: Sys, sid: string, step: Step)
    requires ArmedOk(s) && BareOk(s) && Enabled(s, sid, step) && (step.Admit? || step.Dispatch? || step.Materialize?)
    ensures StillStarts(s, Next(s, sid, step))
  {
    LogGrows(s, sid, step);
  }

  lemma OpeningStarts(s: Sys, sid: string, step: Step)
    requires ArmedOk(s) && BareOk(s) && Enabled(s, sid, step) && (step.Approve? || step.Redeliver?)
    ensures StillStarts(s, Next(s, sid, step))
  {
  }

  /** The steps that close one. */
  lemma ClosingStarts(s: Sys, sid: string, step: Step)
    requires ArmedOk(s) && BareOk(s) && Enabled(s, sid, step) && (step.Settle? || step.Defer?)
    ensures StillStarts(s, Next(s, sid, step))
  {
    LogGrows(s, sid, step);
  }

  lemma DropStarts(s: Sys, sid: string, f: nat, call: string)
    requires ArmedOk(s) && BareOk(s) && Enabled(s, sid, Drop(f, call))
    ensures StillStarts(s, Next(s, sid, Drop(f, call)))
  {
  }

  /** A call that is open under its barrier may be given leave to start. */
  lemma ArmStarts(s: Sys, f: nat, call: string, barrier: Option<nat>)
    requires ArmedOk(s) && BareOk(s) && f <= s.fence && LiveUnder(s, f, call, barrier)
    requires barrier.Some? ==> barrier.value < |s.log| && s.log[barrier.value].call == call
    ensures ArmedOk(Arm(s, f, call, barrier)) && BareOk(Arm(s, f, call, barrier))
  {
  }

  /** The call of a running record becomes open; its leave is added to that. */
  lemma RunningOpens(s: Sys, sid: string, f: nat, e: Event, barrier: Option<nat>)
    requires ArmedOk(s) && BareOk(s) && Enabled(s, sid, Running(f, e)) && barrier == Jobs(s, f)[e.call].barrier
    ensures var t := Forgets(Wrote(s, sid, f, s.workers[f].em.value, e, Jobs(s, f)[e.call := Live(barrier, false)]), f);
            StillStarts(s, t) && LiveUnder(t, f, e.call, barrier)
  {
    LogGrows(s, sid, Running(f, e));
  }

  lemma RunningStarts(s: Sys, sid: string, f: nat, e: Event)
    requires SysOk(s) && ArmedOk(s) && BareOk(s) && Enabled(s, sid, Running(f, e))
    ensures ArmedOk(Next(s, sid, Running(f, e))) && BareOk(Next(s, sid, Running(f, e)))
  {
    var barrier := Jobs(s, f)[e.call].barrier;
    var t := Forgets(Wrote(s, sid, f, s.workers[f].em.value, e, Jobs(s, f)[e.call := Live(barrier, false)]), f);
    RunningOpens(s, sid, f, e, barrier);
    StartsKept(s, t);
    assert MarkOk(s, e.call, Jobs(s, f)[e.call]);
    ArmStarts(t, f, e.call, barrier);
  }

  lemma ResumeStarts(s: Sys, sid: string, f: nat, key: string, e: Event)
    requires ArmedOk(s) && BareOk(s) && Enabled(s, sid, ResumeCall(f, key, e))
    ensures ArmedOk(Next(s, sid, ResumeCall(f, key, e))) && BareOk(Next(s, sid, ResumeCall(f, key, e)))
  {
    LogGrows(s, sid, ResumeCall(f, key, e));
  }

  lemma StepStarts(s: Sys, sid: string, step: Step)
    requires SysOk(s) && ArmedOk(s) && BareOk(s) && Enabled(s, sid, step)
    ensures ArmedOk(Next(s, sid, step)) && BareOk(Next(s, sid, step))
  {
    if step.Running? {
      RunningStarts(s, sid, step.f, step.e);
    } else if step.ResumeCall? {
      ResumeStarts(s, sid, step.f, step.key, step.e);
    } else {
      OtherStep(s, sid, step);
      StartsKept(s, Next(s, sid, step));
    }
  }

  lemma OtherStep(s: Sys, sid: string, step: Step)
    requires ArmedOk(s) && BareOk(s) && Enabled(s, sid, step) && !step.Running? && !step.ResumeCall?
    ensures StillStarts(s, Next(s, sid, step))
  {
    if step.Claim? {
      ClaimStarts(s, sid);
    } else if step.Drop? {
      DropStarts(s, sid, step.f, step.call);
    } else if step.Settle? || step.Defer? {
      ClosingStarts(s, sid, step);
    } else if step.Admit? || step.Dispatch? || step.Materialize? {
      WrittenStarts(s, sid, step);
    } else if step.Approve? || step.Redeliver? {
      OpeningStarts(s, sid, step);
    } else if step.Ask? || step.Answer? || step.Note? || step.Other? || step.Past? {
      RecordStarts(s, sid, step);
    } else if step.Crash? || step.Execute? || step.ExecuteBare? {
      BodyStarts(s, sid, step);
    } else {
      LocalStarts(s, sid, step);
    }
  }

  // ---------------------------------------------------------------- runs

  lemma {:induction false} StartsInRun(sid: string, steps: seq<Step>)
    ensures ArmedOk(Run(sid, steps)) && BareOk(Run(sid, steps))
  {
    if |steps| > 0 {
      var before := Run(sid, steps[..|steps| - 1]);
      StartsInRun(sid, steps[..|steps| - 1]);
      RunKeeps(sid, steps[..|steps| - 1]);
      if Enabled(before, sid, steps[|steps| - 1]) { StepStarts(before, sid, steps[|steps| - 1]); }
    }
  }

  /** In every run a body can start only while its worker has the call open. */
  lemma OnlyOpenCallsStart(sid: string, steps: seq<Step>, f: nat, call: string)
    requires var s := Run(sid, steps); f in s.workers && Startable(s, f, call)
    ensures Job(Run(sid, steps), f, call).Some? && Job(Run(sid, steps), f, call).value.Live?
  {
    StartsInRun(sid, steps);
  }

  /** The worker writes an outcome of the call, or gives the call up. */
  predicate EndsCall(step: Step, f: nat, call: string) {
    match step
    case Settle(g, e) => g == f && e.call == call
    case Defer(g, e) => g == f && e.call == call
    case Drop(g, c) => g == f && c == call
    case _ => false
  }

  /** So it cannot start any more once its worker has written a result or a deferral of the call, or has
      given it up. */
  lemma NothingStartsAfterOutcome(sid: string, steps: seq<Step>, step: Step, f: nat, call: string)
    requires Enabled(Run(sid, steps), sid, step)
    requires EndsCall(step, f, call)
    ensures !Startable(Run(sid, steps + [step]), f, call)
  {
    var s := Run(sid, steps);
    assert (steps + [step])[..|steps|] == steps;
    if Startable(Run(sid, steps + [step]), f, call) { OnlyOpenCallsStart(sid, steps + [step], f, call); }
  }

  /** And a worker that delivers a stored result can start no body at all. */
  lemma DeliveryStartsNothing(sid: string, steps: seq<Step>, step: Step, f: nat, call: string)
    requires Enabled(Run(sid, steps), sid, step)
    requires (step.Materialize? || step.Redeliver?) && step.f == f
    ensures !Startable(Run(sid, steps + [step]), f, call)
  {
    assert (steps + [step])[..|steps|] == steps;
    if Startable(Run(sid, steps + [step]), f, call) { OnlyOpenCallsStart(sid, steps + [step], f, call); }
  }

  /** Of a call that is deferred and not settled in the refreshed cache of a worker about to resume,
      exactly one holds: its resume and the announcement of a stored result are enabled, its stored result
      may be delivered again, or a fresh execution was started and none of these is enabled. */
  lemma ResumeStepsDecide(s: Sys, sid: string, f: nat, key: string, call: string, again: Event, stored: Event, d: nat)
    requires InResume(s, f) && f == s.fence && call != "" && key != ""
    requires again.call == call && again.payload == ToolResumeStarted(false)
    requires stored.call == call && stored.payload == ToolResumeStarted(true)
    requires var log := s.workers[f].cache.value; IsLastDeferral(log, call, key, d) && !ResultAfter(log, call, d)
    ensures Enabled(s, sid, ResumeCall(f, key, again)) <==> Enabled(s, sid, Materialize(f, key, stored))
    ensures !(Enabled(s, sid, ResumeCall(f, key, again)) && Enabled(s, sid, Redeliver(f, key, call)))
    ensures !Enabled(s, sid, ResumeCall(f, key, again)) && !Enabled(s, sid, Redeliver(f, key, call))
       <==> exists j: nat :: StartedAfresh(s.workers[f].cache.value, call, key, d, j)
  {
    GuardsDecide(s.workers[f].cache.value, call, key, d);
  }
}
