/** Runs of the tool-call protocol that break what its guards promise (agent/loop.go:913-929,
    tools/registry.go:953-977): an approved resume runs a body twice, because the approval guard does
    not look for resume barriers, and an approval request after a body hides its unknown outcome
    from recovery. */
module ApprovalGap {
  import opened Basics
  import opened Events
  import opened Store
  import opened Recovery
  import opened RecoveryTheorems
  import opened Lifecycle
  import opened LifecycleTheorems
  import Deferral

  const SESSION := "session"
  const CALL := "call"

  const RUN := "run"

  function Of(call: string, p: Payload): Event { Event(0, NoId, SESSION, RUN, "turn", "step", call, [], p) }

  function About(p: Payload): Event { Of(CALL, p) }

  function Record(resolved: bool): Event {
    About(if resolved then ApprovalResolved else ApprovalRequested).(id := ApprovalId(CALL, resolved))
  }

  function At(e: Event, i: nat): Event { Stored(e, SESSION, i + 1) }

  /** The event under a number of the run, as the log keeps it. */
  function Numbered(e: Event, i: nat, n: nat): Event { At(e.(id := EmitterId(RUN, n)), i) }

  /** Numbers and places agree as long as every id is drawn for an event. */
  function Nth(p: Payload, i: nat): Event { Numbered(About(p), i, i + 1) }

  ghost predicate Aligned(log: seq<Event>) {
    forall i :: 0 <= i < |log| ==> log[i].id == EmitterId(RUN, i + 1) || log[i].id.ApprovalId?
  }

  lemma NextIsNew(log: seq<Event>)
    requires Aligned(log)
    ensures !Swallows(log, Emitter(RUN, |log|)) && !Swallows(log, Emitter(RUN, |log| + 1))
  {
  }

  const REQUEST := Record(false)
  const DECISION := Record(true)
  const RESUME := About(ToolResumeStarted(false))

  lemma RunSnoc(steps: seq<Step>, step: Step)
    ensures Run(SESSION, steps + [step]) == Take(Run(SESSION, steps), SESSION, step)
  {
    assert (steps + [step])[..|steps|] == steps;
  }

  /** The only worker, holding the lease. */
  function Sole(f: nat, log: seq<Event>, w: Worker, armed: map<nat, nat>, execs: seq<Exec>): Sys {
    Sys(log, f, map[f := w], armed, {}, execs)
  }

  // ---------------------------------------------------------------- quiet logs

  /** Nothing but records of some calls: no steps, turns or drafts for recovery to close. */
  ghost predicate Quiet(log: seq<Event>, calls: set<string>) {
    forall i :: 0 <= i < |log| ==> log[i].call in calls && IsLifecycle(log[i].payload)
  }

  lemma {:induction false} QuietFolds(log: seq<Event>, calls: set<string>)
    requires Quiet(log, calls)
    ensures DraftKeys(log) == [] && OpenSteps(log) == [] && TurnsOf(log).open == 0
  {
    if |log| > 0 {
      QuietFolds(log[..|log| - 1], calls);
    }
  }

  lemma {:induction false} QuietStates(log: seq<Event>, calls: set<string>, call: string)
    requires Quiet(log, calls) && call !in calls
    ensures StateOf(log, call) == CallPending
  {
    if |log| > 0 {
      QuietStates(log[..|log| - 1], calls, call);
    }
  }

  /** Recovery leaves a quiet log alone unless one of its calls dangles. */
  lemma NothingToRecover(log: seq<Event>, calls: set<string>)
    requires Quiet(log, calls) && forall c :: c in calls ==> !IsDangling(StateOf(log, c))
    ensures Dangling(log) == [] && Recovered(log, SESSION) == log
  {
    DanglingByState(log);
    QuietFolds(log, calls);
    forall c ensures c !in Dangling(log) {
      if c !in calls { QuietStates(log, calls, c); }
    }
    NoMembers(Dangling(log));
  }

  lemma StateSnoc(log: seq<Event>, e: Event, call: string)
    ensures StateOf(log + [e], call) == NextState(StateOf(log, call), e, call)
  {
    assert (log + [e])[..|log|] == log;
  }

  lemma KeySnoc(log: seq<Event>, e: Event, call: string)
    ensures Deferral.RecordOf(log + [e], call, "key") == Deferral.NextRecord(Deferral.RecordOf(log, call, "key"), e, call, "key")
  {
    assert (log + [e])[..|log|] == log;
  }

  // ---------------------------------------------------------------- single steps of one worker

  const LOG1 := [Nth(ToolCall, 0)]
  const LOG2 := LOG1 + [Nth(ToolDeferred("key"), 1)]
  const BEGUN := [Claim, Refresh(1), StartRun(1, RUN)]
  const ADMITTED := BEGUN + [Admit(1, About(ToolCall))]
  const DEFERRED := ADMITTED + [Defer(1, About(ToolDeferred("key")))]

  /** The worker that drew `n` ids for the run. */
  function Busy(recovered: bool, cache: Option<seq<Event>>, jobs: map<string, Phase>, n: nat): Worker {
    Worker(recovered, cache, jobs, Some(Emitter(RUN, n)))
  }

  lemma AfterStart()
    ensures Run(SESSION, BEGUN) == Sole(1, [], Busy(false, Some([]), map[], 0), map[], [])
  {
    assert Run(SESSION, []) == INIT;
    RunSnoc([], Claim);
    RunSnoc([] + [Claim], Refresh(1));
    RunSnoc([] + [Claim] + [Refresh(1)], StartRun(1, RUN));
    assert BEGUN == [] + [Claim] + [Refresh(1)] + [StartRun(1, RUN)];
    assert Take(INIT, SESSION, Claim) == Sole(1, [], Worker(false, None, map[], None), map[], []);
  }

  lemma AfterAdmission()
    ensures Run(SESSION, ADMITTED) == Sole(1, LOG1, Busy(false, Some(LOG1), map[CALL := Queued], 1), map[], [])
  {
    AfterStart();
    RunSnoc(BEGUN, Admit(1, About(ToolCall)));
    assert [] + [Nth(ToolCall, 0)] == LOG1;
  }

  lemma AfterDeferral()
    ensures Run(SESSION, DEFERRED) == Sole(1, LOG2, Busy(false, Some(LOG2), map[], 2), map[], [])
  {
    AfterAdmission();
    RunSnoc(ADMITTED, Defer(1, About(ToolDeferred("key"))));
    NextIsNew(LOG1);
    assert map[CALL := Queued] - {CALL} == map[];
  }

  lemma StepRecover(f: nat, log: seq<Event>, w: Worker, execs: seq<Exec>)
    requires Recovered(log, SESSION) == log && w.jobs == map[]
    ensures Take(Take(Sole(f, log, w, map[], execs), SESSION, Recover(f)), SESSION, Refresh(f))
         == Sole(f, log, Worker(true, Some(log), map[], None), map[], execs)
  {
  }

  /** A resume whose cache counts every number of its run. */
  lemma StepResume(f: nat, log: seq<Event>, execs: seq<Exec>)
    requires ResumeGuard(log, CALL, "key") && ResumeEmitter(log, CALL, "key") == Emitter(RUN, |log|) && Aligned(log)
    ensures var after := log + [Nth(ToolResumeStarted(false), |log|)];
            Take(Sole(f, log, Worker(true, Some(log), map[], None), map[], execs), SESSION, ResumeCall(f, "key", RESUME))
            == Sole(f, after, Busy(true, Some(after), map[CALL := Live(Some(|log|), true)], |log| + 1), map[|log| := f], execs)
  {
    NextIsNew(log);
  }

  lemma StepAsk(f: nat, log: seq<Event>, w: Worker, armed: map<nat, nat>, execs: seq<Exec>)
    requires CALL in w.jobs && w.jobs[CALL].Live? && ApprovalId(CALL, false) !in Ids(log)
    ensures Take(Sole(f, log, w, armed, execs), SESSION, Ask(f, REQUEST)) == Sole(f, log + [At(REQUEST, |log|)], w, armed, execs)
  {
  }

  lemma StepAnswer(f: nat, log: seq<Event>, w: Worker, armed: map<nat, nat>, execs: seq<Exec>)
    requires ApprovalId(CALL, true) !in Ids(log)
    ensures Take(Sole(f, log, w, armed, execs), SESSION, Answer(DECISION)) == Sole(f, log + [At(DECISION, |log|)], w, armed, execs)
  {
  }

  lemma StepExecute(s: Sys, f: nat, b: nat)
    requires s.armed == map[b := f] && f in s.workers && b < |s.log| && s.log[b].call == CALL
    ensures Take(s, SESSION, Execute(b)) == s.(armed := map[], execs := s.execs + [Exec(CALL, Some(b), |s.log|)])
  {
    assert map[b := f] - {b} == map[];
  }

  lemma StepReplace(f: nat, log: seq<Event>, w: Worker, execs: seq<Exec>)
    ensures Take(Take(Sole(f, log, w, map[], execs), SESSION, Crash(f)), SESSION, Claim)
         == Sole(f + 1, log, Worker(false, None, map[], None), map[], execs)
  {
    assert map[f := w] - {f} == map[];
  }

  lemma StepApprove(f: nat, log: seq<Event>, em: Option<Emitter>, execs: seq<Exec>)
    requires ApprovalGuard(log, CALL) && RunOfCall(log, CALL, RUN)
    ensures Take(Sole(f, log, Worker(false, Some(log), map[], em), map[], execs), SESSION, Approve(f, CALL, RUN))
         == Sole(f, log, Busy(false, Some(log), map[CALL := Queued], |log|), map[], execs)
  {
  }

  lemma StepDispatched(f: nat, log: seq<Event>, cache: seq<Event>, execs: seq<Exec>)
    requires Aligned(log)
    ensures Take(Sole(f, log, Busy(false, Some(cache), map[CALL := Queued], |log|), map[], execs), SESSION, Dispatch(f, About(ToolDispatched)))
         == Sole(f, log + [Nth(ToolDispatched, |log|)], Busy(false, None, map[CALL := Marked(Some(|log|))], |log| + 1), map[], execs)
  {
    NextIsNew(log);
    assert map[CALL := Queued][CALL := Marked(Some(|log|))] == map[CALL := Marked(Some(|log|))];
  }

  lemma StepRunning(f: nat, log: seq<Event>, b: nat, execs: seq<Exec>)
    requires Aligned(log)
    ensures Take(Sole(f, log, Busy(false, None, map[CALL := Marked(Some(b))], |log|), map[], execs), SESSION, Running(f, About(ToolRunning)))
         == Sole(f, log + [Nth(ToolRunning, |log|)], Busy(false, None, map[CALL := Live(Some(b), false)], |log| + 1), map[b := f], execs)
  {
    NextIsNew(log);
    assert map[CALL := Marked(Some(b))][CALL := Live(Some(b), false)] == map[CALL := Live(Some(b), false)];
  }

  function Dispatched(log: seq<Event>): seq<Event> { log + [Nth(ToolDispatched, |log|)] + [Nth(ToolRunning, |log| + 1)] }

  lemma MarkedRun(steps: seq<Step>, f: nat, log: seq<Event>, execs: seq<Exec>)
    requires Aligned(log) && Run(SESSION, steps) == Sole(f, log, Busy(false, Some(log), map[CALL := Queued], |log|), map[], execs)
    ensures Run(SESSION, steps + [Dispatch(f, About(ToolDispatched))] + [Running(f, About(ToolRunning))])
         == Sole(f, Dispatched(log), Busy(false, None, map[CALL := Live(Some(|log|), false)], |log| + 2), map[|log| := f], execs)
  {
    RunSnoc(steps, Dispatch(f, About(ToolDispatched)));
    RunSnoc(steps + [Dispatch(f, About(ToolDispatched))], Running(f, About(ToolRunning)));
    StepDispatched(f, log, log, execs);
    StepRunning(f, log + [Nth(ToolDispatched, |log|)], |log|, execs);
  }

  /** A queued call is dispatched and its body runs. */
  lemma DispatchedRun(steps: seq<Step>, f: nat, log: seq<Event>, execs: seq<Exec>)
    requires Aligned(log) && Run(SESSION, steps) == Sole(f, log, Busy(false, Some(log), map[CALL := Queued], |log|), map[], execs)
    ensures Run(SESSION, steps + [Dispatch(f, About(ToolDispatched))] + [Running(f, About(ToolRunning))] + [Execute(|log|)])
         == Sole(f, Dispatched(log), Busy(false, None, map[CALL := Live(Some(|log|), false)], |log| + 2), map[],
                 execs + [Exec(CALL, Some(|log|), |log| + 2)])
  {
    MarkedRun(steps, f, log, execs);
    ExecutedRun(steps + [Dispatch(f, About(ToolDispatched))] + [Running(f, About(ToolRunning))], f, Dispatched(log),
                Busy(false, None, map[CALL := Live(Some(|log|), false)], |log| + 2), |log|, execs);
  }

  lemma ExecutedRun(steps: seq<Step>, f: nat, log: seq<Event>, w: Worker, b: nat, execs: seq<Exec>)
    requires Run(SESSION, steps) == Sole(f, log, w, map[b := f], execs) && b < |log| && log[b].call == CALL
    ensures Run(SESSION, steps + [Execute(b)]) == Sole(f, log, w, map[], execs + [Exec(CALL, Some(b), |log|)])
  {
    RunSnoc(steps, Execute(b));
    StepExecute(Run(SESSION, steps), f, b);
  }

  ghost predicate AllNumbered(log: seq<Event>) { forall i :: 0 <= i < |log| ==> log[i].id.EmitterId? }

  lemma NoApprovals(log: seq<Event>)
    requires AllNumbered(log)
    ensures ApprovalId(CALL, false) !in Ids(log) && ApprovalId(CALL, true) !in Ids(log + [At(REQUEST, |log|)])
  {
    assert forall e :: e in log + [At(REQUEST, |log|)] <==> e in log || e == At(REQUEST, |log|);
  }

  /** Approval of a running call is asked for and given. */
  lemma AskedRun(steps: seq<Step>, f: nat, log: seq<Event>, w: Worker, armed: map<nat, nat>, execs: seq<Exec>)
    requires Run(SESSION, steps) == Sole(f, log, w, armed, execs) && AllNumbered(log) && CALL in w.jobs && w.jobs[CALL].Live?
    ensures Run(SESSION, steps + [Ask(f, REQUEST)] + [Answer(DECISION)])
         == Sole(f, log + [At(REQUEST, |log|)] + [At(DECISION, |log| + 1)], w, armed, execs)
  {
    RunSnoc(steps, Ask(f, REQUEST));
    RunSnoc(steps + [Ask(f, REQUEST)], Answer(DECISION));
    NoApprovals(log);
    StepAsk(f, log, w, armed, execs);
    StepAnswer(f, log + [At(REQUEST, |log|)], w, armed, execs);
  }

  /** A recovered worker resumes the waiting call. */
  lemma ResumedRun(steps: seq<Step>, f: nat, log: seq<Event>, execs: seq<Exec>)
    requires Aligned(log) && Run(SESSION, steps) == Sole(f, log, Worker(true, Some(log), map[], None), map[], execs)
    requires ResumeGuard(log, CALL, "key") && ResumeEmitter(log, CALL, "key") == Emitter(RUN, |log|)
    ensures var after := log + [Nth(ToolResumeStarted(false), |log|)];
            Run(SESSION, steps + [ResumeCall(f, "key", RESUME)])
            == Sole(f, after, Busy(true, Some(after), map[CALL := Live(Some(|log|), true)], |log| + 1), map[|log| := f], execs)
  {
    RunSnoc(steps, ResumeCall(f, "key", RESUME));
    StepResume(f, log, execs);
  }

  lemma RecoveredRun(steps: seq<Step>, f: nat, log: seq<Event>, w: Worker, execs: seq<Exec>, calls: set<string>)
    requires Run(SESSION, steps) == Sole(f, log, w, map[], execs) && w.jobs == map[]
    requires Quiet(log, calls) && forall c :: c in calls ==> !IsDangling(StateOf(log, c))
    ensures Run(SESSION, steps + [Recover(f)] + [Refresh(f)]) == Sole(f, log, Worker(true, Some(log), map[], None), map[], execs)
  {
    RunSnoc(steps, Recover(f));
    RunSnoc(steps + [Recover(f)], Refresh(f));
    NothingToRecover(log, calls);
    StepRecover(f, log, w, execs);
  }

  // ---------------------------------------------------------------- an approved resume runs twice

  const LOG3 := LOG2 + [Nth(ToolResumeStarted(false), 2)]
  const LOG5 := LOG3 + [At(REQUEST, 3)] + [At(DECISION, 4)]
  const LOG7 := LOG5 + [Nth(ToolDispatched, 5)] + [Nth(ToolRunning, 6)]

  /** Deferred before dispatch by a guard, then resumed: the resume barrier is durable. */
  const RESUMED := DEFERRED + [Recover(1)] + [Refresh(1)] + [ResumeCall(1, "key", RESUME)]

  /** Approval is asked and given and the body runs, but the worker crashes before its result. */
  const EXECUTED := RESUMED + [Ask(1, REQUEST)] + [Answer(DECISION)] + [Execute(2)]

  /** The next worker resumes the approved call. */
  const APPROVED := EXECUTED + [Crash(1)] + [Claim] + [Refresh(2)] + [Approve(2, CALL, RUN)]
  const AGAIN := APPROVED + [Dispatch(2, About(ToolDispatched))] + [Running(2, About(ToolRunning))] + [Execute(5)]

  lemma DeferredFolds()
    ensures Quiet(LOG2, {CALL}) && StateOf(LOG2, CALL) == CallDeferred && ResumeGuard(LOG2, CALL, "key")
    ensures ResumeEmitter(LOG2, CALL, "key") == Emitter(RUN, 2)
  {
    assert LOG1 == [] + [Nth(ToolCall, 0)];
    StateSnoc([], Nth(ToolCall, 0), CALL);
    StateSnoc(LOG1, Nth(ToolDeferred("key"), 1), CALL);
    KeySnoc([], Nth(ToolCall, 0), CALL);
    KeySnoc(LOG1, Nth(ToolDeferred("key"), 1), CALL);
  }

  lemma AfterResume()
    ensures Run(SESSION, RESUMED) == Sole(1, LOG3, Busy(true, Some(LOG3), map[CALL := Live(Some(2), true)], 3), map[2 := 1], [])
  {
    AfterDeferral();
    DeferredFolds();
    RecoveredRun(DEFERRED, 1, LOG2, Busy(false, Some(LOG2), map[], 2), [], {CALL});
    ResumedRun(DEFERRED + [Recover(1)] + [Refresh(1)], 1, LOG2, []);
  }

  const RESUMER := Busy(true, Some(LOG3), map[CALL := Live(Some(2), true)], 3)

  lemma AfterExecution()
    ensures Run(SESSION, EXECUTED) == Sole(1, LOG5, RESUMER, map[], [Exec(CALL, Some(2), 5)])
  {
    AfterResume();
    AskedRun(RESUMED, 1, LOG3, RESUMER, map[2 := 1], []);
    assert LOG5[2] == Nth(ToolResumeStarted(false), 2);
    ExecutedRun(RESUMED + [Ask(1, REQUEST)] + [Answer(DECISION)], 1, LOG5, RESUMER, 2, []);
  }

  lemma MayApprove()
    ensures ApprovalGuard(LOG5, CALL) && RunOfCall(LOG5, CALL, RUN)
  {
    assert LOG5[0] == Nth(ToolCall, 0);
    assert LOG5 == [Nth(ToolCall, 0), Nth(ToolDeferred("key"), 1), Nth(ToolResumeStarted(false), 2), At(REQUEST, 3), At(DECISION, 4)];
  }

  lemma AfterApproval()
    ensures Run(SESSION, APPROVED) == Sole(2, LOG5, Busy(false, Some(LOG5), map[CALL := Queued], 5), map[], [Exec(CALL, Some(2), 5)])
  {
    AfterExecution();
    RunSnoc(EXECUTED, Crash(1));
    RunSnoc(EXECUTED + [Crash(1)], Claim);
    RunSnoc(EXECUTED + [Crash(1)] + [Claim], Refresh(2));
    RunSnoc(EXECUTED + [Crash(1)] + [Claim] + [Refresh(2)], Approve(2, CALL, RUN));
    StepReplace(1, LOG5, RESUMER, [Exec(CALL, Some(2), 5)]);
    MayApprove();
    StepApprove(2, LOG5, None, [Exec(CALL, Some(2), 5)]);
  }

  lemma AfterAgain()
    ensures Run(SESSION, AGAIN)
         == Sole(2, LOG7, Busy(false, None, map[CALL := Live(Some(5), false)], 7), map[], [Exec(CALL, Some(2), 5), Exec(CALL, Some(5), 7)])
  {
    AfterApproval();
    DispatchedRun(APPROVED, 2, LOG5, [Exec(CALL, Some(2), 5)]);
  }

  /** A run of the protocol in which one call executes twice with no durable deferral between the
      two barriers: the approval guard passes although the resume barrier is on the log. */
  lemma ApprovedResumeRunsTwice()
    ensures Run(SESSION, AGAIN).execs == [Exec(CALL, Some(2), 5), Exec(CALL, Some(5), 7)]
    ensures |Run(SESSION, AGAIN).log| == 7 && !DeferredBetween(Run(SESSION, AGAIN).log, CALL, 2, 5)
    ensures !Separated(Run(SESSION, AGAIN).log, CALL)
    ensures ApprovalGuard(Run(SESSION, APPROVED).log, CALL) && BarrierOpen(Run(SESSION, APPROVED).log, CALL)
    ensures ApprovalId(CALL, false) in Ids(Run(SESSION, APPROVED).log)
  {
    AfterAgain();
    AfterApproval();
    MayApprove();
    assert LOG7[2] == LOG5[2] == Nth(ToolResumeStarted(false), 2);
    assert LOG7[3] == LOG5[3] == At(REQUEST, 3);
    assert LOG7[4] == LOG5[4] == At(DECISION, 4);
    assert LOG7[5] == Nth(ToolDispatched, 5);
    assert Barrier(LOG7[2], CALL) && Barrier(LOG7[5], CALL) && Barrier(LOG5[2], CALL);
    assert OpenAt(LOG5, CALL, 2);
    assert LOG5[3] in LOG5;
  }

  // ---------------------------------------------------------------- a worker asks and is replaced

  lemma AskAndCrash(steps: seq<Step>, log: seq<Event>, w: Worker, execs: seq<Exec>)
    requires Run(SESSION, steps) == Sole(1, log, w, map[], execs)
    requires CALL in w.jobs && w.jobs[CALL].Live? && AllNumbered(log)
    ensures Run(SESSION, steps + [Ask(1, REQUEST)] + [Crash(1)] + [Claim])
         == Sole(2, log + [At(REQUEST, |log|)], Worker(false, None, map[], None), map[], execs)
  {
    RunSnoc(steps, Ask(1, REQUEST));
    RunSnoc(steps + [Ask(1, REQUEST)], Crash(1));
    RunSnoc(steps + [Ask(1, REQUEST)] + [Crash(1)], Claim);
    NoApprovals(log);
    StepAsk(1, log, w, map[], execs);
    StepReplace(1, log + [At(REQUEST, |log|)], w, execs);
  }

  // ---------------------------------------------------------------- a request after the body hides it

  const BODY3 := LOG1 + [Nth(ToolDispatched, 1)] + [Nth(ToolRunning, 2)]
  const BODY4 := BODY3 + [At(REQUEST, 3)]

  /** A dispatched body has run, its post-policy asks for approval, and the worker crashes; the next
      one recovers. */
  const RAN := ADMITTED + [Dispatch(1, About(ToolDispatched))] + [Running(1, About(ToolRunning))] + [Execute(1)]
  const HIDDEN := RAN + [Ask(1, REQUEST)] + [Crash(1)] + [Claim] + [Recover(2)] + [Refresh(2)]

  lemma AfterBody()
    ensures Run(SESSION, RAN) == Sole(1, BODY3, Busy(false, None, map[CALL := Live(Some(1), false)], 3), map[], [Exec(CALL, Some(1), 3)])
  {
    AfterAdmission();
    DispatchedRun(ADMITTED, 1, LOG1, []);
  }

  lemma HiddenFolds()
    ensures Quiet(BODY4, {CALL}) && StateOf(BODY4, CALL) == CallApprovalPending
  {
    StateSnoc(BODY3, At(REQUEST, 3), CALL);
    assert BODY4 == [Nth(ToolCall, 0), Nth(ToolDispatched, 1), Nth(ToolRunning, 2), At(REQUEST, 3)];
  }

  lemma AfterHiding()
    ensures Run(SESSION, HIDDEN) == Sole(2, BODY4, Worker(true, Some(BODY4), map[], None), map[], [Exec(CALL, Some(1), 3)])
  {
    AfterBody();
    AskAndCrash(RAN, BODY3, Busy(false, None, map[CALL := Live(Some(1), false)], 3), [Exec(CALL, Some(1), 3)]);
    HiddenFolds();
    RecoveredRun(RAN + [Ask(1, REQUEST)] + [Crash(1)] + [Claim], 2, BODY4, Worker(false, None, map[], None), [Exec(CALL, Some(1), 3)], {CALL});
  }

  /** The executed call is neither settled by recovery, then or later, nor admitted by the approval
      guard: its outcome stays off the log. */
  lemma HiddenBodyIsNeverSettled()
    ensures var s := Run(SESSION, HIDDEN);
            && s.execs == [Exec(CALL, Some(1), 3)] && StartedUnsettled(s.log, CALL)
            && Dangling(s.log) == [] && Recovered(s.log, SESSION) == s.log && !ApprovalGuard(s.log, CALL)
  {
    AfterHiding();
    HiddenFolds();
    NothingToRecover(BODY4, {CALL});
    HiddenStarted();
  }

  lemma HiddenStarted()
    ensures StartedUnsettled(BODY4, CALL) && !ApprovalGuard(BODY4, CALL)
  {
    assert BODY4[1] == Nth(ToolDispatched, 1) && BODY4[2] == Nth(ToolRunning, 2) && BODY4[3] == At(REQUEST, 3);
    assert UnsettledAt(BODY4, CALL, 2);
  }

  // ---------------------------------------------------------------- a resume over a hidden barrier

  const OVER4 := LOG2 + [Nth(ToolDispatched, 2)] + [Nth(ToolRunning, 3)]
  const OVER5 := OVER4 + [At(REQUEST, 4)]
  const OVER6 := OVER5 + [Nth(ToolResumeStarted(false), 5)]

  /** A host resumes a deferred call as approved although no request is on the log; the body runs,
      its post-policy asks, and the worker crashes. The call is then resumed as deferred. */
  const STARTED := DEFERRED + [Approve(1, CALL, RUN)] + [Dispatch(1, About(ToolDispatched))] + [Running(1, About(ToolRunning))] + [Execute(2)]
  const REPLACED := STARTED + [Ask(1, REQUEST)] + [Crash(1)] + [Claim] + [Recover(2)] + [Refresh(2)]
  const OVERWRITTEN := REPLACED + [ResumeCall(2, "key", RESUME)] + [Execute(5)]

  const DONE := [Exec(CALL, Some(2), 4)]

  lemma AfterApprovedStart()
    ensures Run(SESSION, STARTED) == Sole(1, OVER4, Busy(false, None, map[CALL := Live(Some(2), false)], 4), map[], DONE)
  {
    AfterDeferral();
    RunSnoc(DEFERRED, Approve(1, CALL, RUN));
    assert LOG2[0] == Nth(ToolCall, 0);
    StepApprove(1, LOG2, Some(Emitter(RUN, 2)), []);
    DispatchedRun(DEFERRED + [Approve(1, CALL, RUN)], 1, LOG2, []);
  }

  lemma OverFolds()
    ensures Quiet(OVER5, {CALL}) && StateOf(OVER5, CALL) == CallApprovalPending && ResumeGuard(OVER5, CALL, "key")
    ensures ResumeEmitter(OVER5, CALL, "key") == Emitter(RUN, 5)
  {
    DeferredFolds();
    StateSnoc(OVER4, At(REQUEST, 4), CALL);
    KeySnoc(LOG2, Nth(ToolDispatched, 2), CALL);
    KeySnoc(LOG2 + [Nth(ToolDispatched, 2)], Nth(ToolRunning, 3), CALL);
    KeySnoc(OVER4, At(REQUEST, 4), CALL);
  }

  lemma AfterReplacement()
    ensures Run(SESSION, REPLACED) == Sole(2, OVER5, Worker(true, Some(OVER5), map[], None), map[], DONE)
  {
    AfterApprovedStart();
    AskAndCrash(STARTED, OVER4, Busy(false, None, map[CALL := Live(Some(2), false)], 4), DONE);
    OverFolds();
    RecoveredRun(STARTED + [Ask(1, REQUEST)] + [Crash(1)] + [Claim], 2, OVER5, Worker(false, None, map[], None), DONE, {CALL});
  }

  lemma ResumeIsDue(f: nat, log: seq<Event>, execs: seq<Exec>)
    requires ResumeGuard(log, CALL, "key")
    ensures var s, step := Sole(f, log, Worker(true, Some(log), map[], None), map[], execs), ResumeCall(f, "key", RESUME);
            Enabled(s, SESSION, step) && EmitterOf(s, step) == Some(ResumeEmitter(log, CALL, "key"))
  {
  }

  lemma ResumeIsCareless(f: nat, log: seq<Event>, execs: seq<Exec>)
    requires Aligned(log) && ResumeGuard(log, CALL, "key") && ResumeEmitter(log, CALL, "key") == Emitter(RUN, |log|)
    requires ViewOf(log, CALL).open
    ensures Careless(Sole(f, log, Worker(true, Some(log), map[], None), map[], execs), SESSION, ResumeCall(f, "key", RESUME), CALL)
  {
    var s, step := Sole(f, log, Worker(true, Some(log), map[], None), map[], execs), ResumeCall(f, "key", RESUME);
    ResumeIsDue(f, log, execs);
    assert Added(s, step).Some? by { NextIsNew(log); }
  }

  lemma AfterOverwriting()
    ensures Run(SESSION, OVERWRITTEN)
         == Sole(2, OVER6, Busy(true, Some(OVER6), map[CALL := Live(Some(5), true)], 6), map[], DONE + [Exec(CALL, Some(5), 6)])
  {
    AfterReplacement();
    OverFolds();
    ResumedRun(REPLACED, 2, OVER5, DONE);
    assert OVER6[5] == Nth(ToolResumeStarted(false), 5);
    ExecutedRun(REPLACED + [ResumeCall(2, "key", RESUME)], 2, OVER6, Busy(true, Some(OVER6), map[CALL := Live(Some(5), true)], 6), 5, DONE);
  }

  lemma OverIsAligned()
    ensures |OVER5| == 5 && Aligned(OVER5)
  {
  }

  lemma OverIsCareless()
    ensures Careless(Sole(2, OVER5, Worker(true, Some(OVER5), map[], None), map[], DONE), SESSION, ResumeCall(2, "key", RESUME), CALL)
  {
    OverIsAligned();
    OverFolds();
    OverBarriers();
    ResumeIsCareless(2, OVER5, DONE);
  }

  /** The resume writes its barrier over the open one and the body runs again: no deferral lies
      between the two executions. */
  lemma ResumeOverHiddenBarrier()
    ensures Run(SESSION, OVERWRITTEN).execs == [Exec(CALL, Some(2), 4), Exec(CALL, Some(5), 6)]
    ensures Careless(Run(SESSION, REPLACED), SESSION, ResumeCall(2, "key", RESUME), CALL)
    ensures !Separated(Run(SESSION, OVERWRITTEN).log, CALL)
  {
    AfterOverwriting();
    OverBarriers();
    AfterReplacement();
    OverIsCareless();
  }

  lemma OverBarriers()
    ensures ViewOf(OVER5, CALL).open && !Separated(OVER6, CALL)
  {
    assert OVER5[2] == OVER6[2] == Nth(ToolDispatched, 2);
    assert OVER5[3] == OVER6[3] == Nth(ToolRunning, 3);
    assert OVER5[4] == OVER6[4] == At(REQUEST, 4);
    assert OVER6[5] == Nth(ToolResumeStarted(false), 5);
    assert OpenAt(OVER5, CALL, 2);
    OpenExactly(OVER5, CALL);
    assert Barrier(OVER6[2], CALL) && Barrier(OVER6[5], CALL) && !DeferredBetween(OVER6, CALL, 2, 5);
  }
}
