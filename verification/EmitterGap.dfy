/** Runs in which a resumed emitter draws numbers that are taken (agent/loop.go:659,
    agent/loop.go:2637-2639): the provider returned calls without ids, so more ids were drawn than
    events written, and a resume's barrier is answered with the very deferral it resumes. The body then
    runs any number of times on one deferral; with two such calls its result is swallowed as well. */
module EmitterGap {
  import opened Events
  import opened Recovery
  import opened Lifecycle
  import opened LifecycleTheorems
  import opened EmitterTheorems
  import opened ApprovalGap

  const DEFER := ToolDeferred("key")

  /** A worker that may resume the waiting call. */
  function Ready(f: nat, log: seq<Event>, execs: seq<Exec>): Sys { Sole(f, log, Worker(true, Some(log), map[], None), map[], execs) }

  /** A worker whose resume wrote no barrier. */
  function Unbarriered(f: nat, log: seq<Event>, bare: set<Bare>, execs: seq<Exec>): Sys {
    Sole(f, log, Busy(true, Some(log), map[CALL := Live(None, true)], |log| + 1), map[], execs).(bare := bare)
  }

  lemma StepSwallowed(f: nat, log: seq<Event>, execs: seq<Exec>)
    requires ResumeGuard(log, CALL, "key") && ResumeEmitter(log, CALL, "key") == Emitter(RUN, |log|)
    requires HasNumber(log, RUN, |log| + 1)
    ensures Take(Ready(f, log, execs), SESSION, ResumeCall(f, "key", RESUME)) == Unbarriered(f, log, {Bare(f, CALL)}, execs)
    ensures Swallowed(Ready(f, log, execs), SESSION, ResumeCall(f, "key", RESUME), CALL)
  {
    ResumeIsDue(f, log, execs);
    assert map[][CALL := Live(None, true)] == map[CALL := Live(None, true)];
  }

  lemma StepExecuteBare(f: nat, log: seq<Event>, execs: seq<Exec>)
    ensures Take(Unbarriered(f, log, {Bare(f, CALL)}, execs), SESSION, ExecuteBare(f, CALL))
         == Unbarriered(f, log, {}, execs + [Exec(CALL, None, |log|)])
  {
  }

  /** A recovered worker resumes the call over a taken number, and the body runs. */
  lemma SwallowedRun(steps: seq<Step>, f: nat, log: seq<Event>, execs: seq<Exec>)
    requires Run(SESSION, steps) == Ready(f, log, execs)
    requires ResumeGuard(log, CALL, "key") && ResumeEmitter(log, CALL, "key") == Emitter(RUN, |log|)
    requires HasNumber(log, RUN, |log| + 1)
    ensures Run(SESSION, steps + [ResumeCall(f, "key", RESUME)] + [ExecuteBare(f, CALL)])
         == Unbarriered(f, log, {}, execs + [Exec(CALL, None, |log|)])
  {
    ApprovalGap.RunSnoc(steps, ResumeCall(f, "key", RESUME));
    ApprovalGap.RunSnoc(steps + [ResumeCall(f, "key", RESUME)], ExecuteBare(f, CALL));
    StepSwallowed(f, log, execs);
    StepExecuteBare(f, log, execs);
  }

  function Times(k: nat, at: nat): (execs: seq<Exec>)
    ensures |execs| == k
  {
    if k == 0 then [] else Times(k - 1, at) + [Exec(CALL, None, at)]
  }

  lemma {:induction false} TimesCounted(k: nat, at: nat)
    ensures ExecCount(Times(k, at), CALL) == k && BareCount(Times(k, at), CALL) == k
  {
    if k > 0 {
      TimesCounted(k - 1, at);
      assert Times(k, at)[..k - 1] == Times(k - 1, at);
    }
  }

  // ---------------------------------------------------------------- one call without an id

  const CALL2 := Numbered(About(ToolCall), 0, 2)
  const DEFER3 := Numbered(About(DEFER), 1, 3)
  const WAIT := [CALL2, DEFER3]

  /** The provider's only call has no id and a guard defers it. */
  const IDLESS := BEGUN + [Draw(1)] + [Admit(1, About(ToolCall))] + [Defer(1, About(DEFER))]

  lemma StepAdmit(log: seq<Event>, jobs: map<string, Phase>, n: nat, call: string)
    requires call != "" && call !in jobs && !HasNumber(log, RUN, n + 1) && forall i :: 0 <= i < |log| ==> log[i].call != call
    ensures var after := log + [Numbered(Of(call, ToolCall), |log|, n + 1)];
            Take(Sole(1, log, Busy(false, Some(log), jobs, n), map[], []), SESSION, Admit(1, Of(call, ToolCall)))
            == Sole(1, after, Busy(false, Some(after), jobs[call := Queued], n + 1), map[], [])
  {
  }

  lemma StepDefer(log: seq<Event>, jobs: map<string, Phase>, n: nat, call: string)
    requires call != "" && call in jobs && jobs[call] == Queued && !HasNumber(log, RUN, n + 1)
    ensures var after := log + [Numbered(Of(call, DEFER), |log|, n + 1)];
            Take(Sole(1, log, Busy(false, Some(log), jobs, n), map[], []), SESSION, Defer(1, Of(call, DEFER)))
            == Sole(1, after, Busy(false, Some(after), jobs - {call}, n + 1), map[], [])
  {
  }

  lemma AdmittedRun(steps: seq<Step>, log: seq<Event>, jobs: map<string, Phase>, n: nat, call: string)
    requires Run(SESSION, steps) == Sole(1, log, Busy(false, Some(log), jobs, n), map[], [])
    requires call != "" && call !in jobs && !HasNumber(log, RUN, n + 1) && forall i :: 0 <= i < |log| ==> log[i].call != call
    ensures var after := log + [Numbered(Of(call, ToolCall), |log|, n + 1)];
            Run(SESSION, steps + [Admit(1, Of(call, ToolCall))]) == Sole(1, after, Busy(false, Some(after), jobs[call := Queued], n + 1), map[], [])
  {
    ApprovalGap.RunSnoc(steps, Admit(1, Of(call, ToolCall)));
    StepAdmit(log, jobs, n, call);
  }

  lemma DeferredRun(steps: seq<Step>, log: seq<Event>, jobs: map<string, Phase>, n: nat, call: string)
    requires Run(SESSION, steps) == Sole(1, log, Busy(false, Some(log), jobs, n), map[], [])
    requires call != "" && call in jobs && jobs[call] == Queued && !HasNumber(log, RUN, n + 1)
    ensures var after := log + [Numbered(Of(call, DEFER), |log|, n + 1)];
            Run(SESSION, steps + [Defer(1, Of(call, DEFER))]) == Sole(1, after, Busy(false, Some(after), jobs - {call}, n + 1), map[], [])
  {
    ApprovalGap.RunSnoc(steps, Defer(1, Of(call, DEFER)));
    StepDefer(log, jobs, n, call);
  }

  lemma AfterIdless()
    ensures Run(SESSION, IDLESS) == Sole(1, WAIT, Busy(false, Some(WAIT), map[], 3), map[], [])
  {
    AfterDraw();
    AdmittedRun(BEGUN + [Draw(1)], [], map[], 1, CALL);
    assert [] + [CALL2] == [CALL2] && [CALL2] + [DEFER3] == WAIT;
    DeferredRun(BEGUN + [Draw(1)] + [Admit(1, About(ToolCall))], [CALL2], map[CALL := Queued], 2, CALL);
    assert map[CALL := Queued] - {CALL} == map[];
  }

  lemma AfterDraw()
    ensures Run(SESSION, BEGUN + [Draw(1)]) == Sole(1, [], Busy(false, Some([]), map[], 1), map[], [])
  {
    AfterStart();
    ApprovalGap.RunSnoc(BEGUN, Draw(1));
  }

  lemma WaitFolds()
    ensures Quiet(WAIT, {CALL}) && StateOf(WAIT, CALL) == CallDeferred && ResumeGuard(WAIT, CALL, "key")
    ensures ResumeEmitter(WAIT, CALL, "key") == Emitter(RUN, 2) && HasNumber(WAIT, RUN, 3)
  {
    assert [] + [CALL2] == [CALL2] && [CALL2] + [DEFER3] == WAIT;
    StateSnoc([], CALL2, CALL);
    StateSnoc([CALL2], DEFER3, CALL);
    KeySnoc([], CALL2, CALL);
    KeySnoc([CALL2], DEFER3, CALL);
    assert WAIT[1] in WAIT;
  }

  /** The worker dies before its result; the next one recovers and resumes the deferral. */
  function Rounds(k: nat): seq<Step> {
    if k == 0 then IDLESS
    else Rounds(k - 1) + [Crash(k)] + [Claim] + [Recover(k + 1)] + [Refresh(k + 1)]
         + [ResumeCall(k + 1, "key", RESUME)] + [ExecuteBare(k + 1, CALL)]
  }

  lemma ReplacedRun(steps: seq<Step>, f: nat, log: seq<Event>, w: Worker, execs: seq<Exec>)
    requires Run(SESSION, steps) == Sole(f, log, w, map[], execs)
    ensures Run(SESSION, steps + [Crash(f)] + [Claim]) == Sole(f + 1, log, Worker(false, None, map[], None), map[], execs)
  {
    ApprovalGap.RunSnoc(steps, Crash(f));
    ApprovalGap.RunSnoc(steps + [Crash(f)], Claim);
    StepReplace(f, log, w, execs);
  }

  /** One more round changes nothing but the count of executions. */
  lemma RoundRun(steps: seq<Step>, f: nat, w: Worker, execs: seq<Exec>)
    requires Run(SESSION, steps) == Sole(f, WAIT, w, map[], execs)
    ensures Run(SESSION, steps + [Crash(f)] + [Claim] + [Recover(f + 1)] + [Refresh(f + 1)]
                         + [ResumeCall(f + 1, "key", RESUME)] + [ExecuteBare(f + 1, CALL)])
         == Unbarriered(f + 1, WAIT, {}, execs + [Exec(CALL, None, 2)])
  {
    var replaced := steps + [Crash(f)] + [Claim];
    WaitFolds();
    ReplacedRun(steps, f, WAIT, w, execs);
    RecoveredRun(replaced, f + 1, WAIT, Worker(false, None, map[], None), execs, {CALL});
    SwallowedRun(replaced + [Recover(f + 1)] + [Refresh(f + 1)], f + 1, WAIT, execs);
  }

  lemma {:induction false} AfterRounds(k: nat) returns (w: Worker)
    ensures Run(SESSION, Rounds(k)) == Sole(k + 1, WAIT, w, map[], Times(k, 2))
  {
    if k == 0 {
      AfterIdless();
      w := Busy(false, Some(WAIT), map[], 3);
    } else {
      var before := AfterRounds(k - 1);
      RoundRun(Rounds(k - 1), k, before, Times(k - 1, 2));
      w := Busy(true, Some(WAIT), map[CALL := Live(None, true)], 3);
    }
  }

  lemma WaitSets()
    ensures DeferralSet(WAIT, CALL) == {1} && BarrierSet(WAIT, CALL) == {} && Dangling(WAIT) == [] && ResumeGuard(WAIT, CALL, "key")
  {
    WaitFolds();
    NothingToRecover(WAIT, {CALL});
  }

  /** One deferral, any number of executions: each resume is answered with the deferral, no barrier
      is ever written, recovery finds nothing dangling, and the guard admits the next resume. */
  lemma OneDeferralRunsAnyNumberOfTimes(k: nat)
    ensures var s := Run(SESSION, Rounds(k));
            && ExecCount(s.execs, CALL) == k
            && DeferralSet(s.log, CALL) == {1} && BarrierSet(s.log, CALL) == {}
            && Dangling(s.log) == [] && ResumeGuard(s.log, CALL, "key")
  {
    var w := AfterRounds(k);
    TimesCounted(k, 2);
    WaitSets();
  }

  // ---------------------------------------------------------------- two calls without ids

  const OTHER := "other"
  const RESULT := About(ToolResult("done", "", [], false))
  const BOTH1 := [Numbered(About(ToolCall), 0, 3)]
  const BOTH2 := BOTH1 + [Numbered(Of(OTHER, ToolCall), 1, 4)]
  const BOTH3 := BOTH2 + [Numbered(About(DEFER), 2, 5)]
  const BOTH4 := BOTH3 + [Numbered(Of(OTHER, DEFER), 3, 6)]

  /** One response holds two calls without ids, and both are deferred. */
  const DRAWN := BEGUN + [Draw(1)] + [Draw(1)]
  const QUEUED := DRAWN + [Admit(1, About(ToolCall))] + [Admit(1, Of(OTHER, ToolCall))]
  const PAIR := QUEUED + [Defer(1, About(DEFER))] + [Defer(1, Of(OTHER, DEFER))]

  lemma AfterDraws()
    ensures Run(SESSION, DRAWN) == Sole(1, [], Busy(false, Some([]), map[], 2), map[], [])
  {
    AfterDraw();
    ApprovalGap.RunSnoc(BEGUN + [Draw(1)], Draw(1));
  }

  lemma Untaken(log: seq<Event>, n: nat)
    requires forall i :: 0 <= i < |log| ==> log[i].id.EmitterId? && log[i].id.n != n
    ensures !HasNumber(log, RUN, n)
  {
  }

  const JOBS := map[CALL := Queued, OTHER := Queued]

  lemma AfterAdmissions()
    ensures Run(SESSION, QUEUED) == Sole(1, BOTH2, Busy(false, Some(BOTH2), JOBS, 4), map[], [])
  {
    AfterDraws();
    AdmittedRun(DRAWN, [], map[], 2, CALL);
    assert [] + [Numbered(About(ToolCall), 0, 3)] == BOTH1;
    Untaken(BOTH1, 4);
    AdmittedRun(DRAWN + [Admit(1, About(ToolCall))], BOTH1, map[CALL := Queued], 3, OTHER);
    assert map[CALL := Queued][OTHER := Queued] == JOBS;
  }

  lemma AfterPair()
    ensures Run(SESSION, PAIR) == Sole(1, BOTH4, Busy(false, Some(BOTH4), map[], 6), map[], [])
  {
    AfterAdmissions();
    Untaken(BOTH2, 5);
    DeferredRun(QUEUED, BOTH2, JOBS, 4, CALL);
    Untaken(BOTH3, 6);
    DeferredRun(QUEUED + [Defer(1, About(DEFER))], BOTH3, JOBS - {CALL}, 5, OTHER);
    assert JOBS - {CALL} - {OTHER} == map[];
  }

  lemma PairFolds()
    ensures Quiet(BOTH4, {CALL, OTHER}) && StateOf(BOTH4, CALL) == CallDeferred && StateOf(BOTH4, OTHER) == CallDeferred
    ensures ResumeGuard(BOTH4, CALL, "key") && ResumeEmitter(BOTH4, CALL, "key") == Emitter(RUN, 4)
    ensures HasNumber(BOTH4, RUN, 5) && HasNumber(BOTH4, RUN, 6)
  {
    PairStates(CALL);
    PairStates(OTHER);
    assert BOTH1 == [] + BOTH1;
    KeySnoc([], BOTH1[0], CALL);
    KeySnoc(BOTH1, BOTH2[1], CALL);
    KeySnoc(BOTH2, BOTH3[2], CALL);
    KeySnoc(BOTH3, BOTH4[3], CALL);
    assert BOTH4[2] in BOTH4 && BOTH4[3] in BOTH4;
  }

  lemma PairStates(call: string)
    requires call == CALL || call == OTHER
    ensures StateOf(BOTH4, call) == CallDeferred
  {
    assert BOTH1 == [] + BOTH1;
    StateSnoc([], BOTH1[0], call);
    StateSnoc(BOTH1, BOTH2[1], call);
    StateSnoc(BOTH2, BOTH3[2], call);
    StateSnoc(BOTH3, BOTH4[3], call);
  }

  /** The host resumes the first call, again and again. */
  function Resumes(k: nat): seq<Step> {
    if k == 0 then PAIR
    else Resumes(k - 1) + [Recover(1)] + [Refresh(1)] + [ResumeCall(1, "key", RESUME)] + [ExecuteBare(1, CALL)] + [Settle(1, RESULT)]
  }

  lemma StepUnsettled(log: seq<Event>, execs: seq<Exec>)
    requires HasNumber(log, RUN, |log| + 2)
    ensures Take(Unbarriered(1, log, {}, execs), SESSION, Settle(1, RESULT)) == Sole(1, log, Busy(true, Some(log), map[], |log| + 2), map[], execs)
  {
    assert map[CALL := Live(None, true)] - {CALL} == map[];
  }

  lemma ResumedOnce(steps: seq<Step>, w: Worker, execs: seq<Exec>)
    requires Run(SESSION, steps) == Sole(1, BOTH4, w, map[], execs) && w.jobs == map[]
    ensures Run(SESSION, steps + [Recover(1)] + [Refresh(1)] + [ResumeCall(1, "key", RESUME)] + [ExecuteBare(1, CALL)] + [Settle(1, RESULT)])
         == Sole(1, BOTH4, Busy(true, Some(BOTH4), map[], 6), map[], execs + [Exec(CALL, None, 4)])
  {
    var ready := steps + [Recover(1)] + [Refresh(1)];
    PairFolds();
    RecoveredRun(steps, 1, BOTH4, w, execs, {CALL, OTHER});
    SwallowedRun(ready, 1, BOTH4, execs);
    ApprovalGap.RunSnoc(ready + [ResumeCall(1, "key", RESUME)] + [ExecuteBare(1, CALL)], Settle(1, RESULT));
    StepUnsettled(BOTH4, execs + [Exec(CALL, None, 4)]);
  }

  lemma {:induction false} AfterResumes(k: nat) returns (w: Worker)
    ensures Run(SESSION, Resumes(k)) == Sole(1, BOTH4, w, map[], Times(k, 4)) && w.jobs == map[]
  {
    if k == 0 {
      AfterPair();
      w := Busy(false, Some(BOTH4), map[], 6);
    } else {
      var before := AfterResumes(k - 1);
      ResumedOnce(Resumes(k - 1), before, Times(k - 1, 4));
      w := Busy(true, Some(BOTH4), map[], 6);
    }
  }

  /** No crash is needed: with two such calls the result takes the number of the second deferral and
      is swallowed too, so however often the call runs it is never settled. */
  lemma ResultIsSwallowed(k: nat)
    ensures var s := Run(SESSION, Resumes(k));
            && ExecCount(s.execs, CALL) == k && s.log == BOTH4 && !HasResult(s.log, CALL)
            && ResumeGuard(s.log, CALL, "key")
  {
    var w := AfterResumes(k);
    TimesCounted(k, 4);
    PairIsUnsettled();
  }

  lemma PairIsUnsettled()
    ensures !HasResult(BOTH4, CALL) && ResumeGuard(BOTH4, CALL, "key")
  {
    PairFolds();
    assert BOTH4[0] == Numbered(About(ToolCall), 0, 3) && BOTH4[1] == Numbered(Of(OTHER, ToolCall), 1, 4);
    assert BOTH4[2] == Numbered(About(DEFER), 2, 5) && BOTH4[3] == Numbered(Of(OTHER, DEFER), 3, 6);
  }
}
