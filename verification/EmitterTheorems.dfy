/** What the numbering of event ids does to the tool-call protocol (agent/loop.go:2805-2822). A run's
    emitter is seeded from zero when the run starts and from the length of the cache whenever it is
    resumed. Where ids were drawn without an event the log is shorter than the numbers on it, and a
    resumed emitter draws numbers that are taken: the committed append then answers with the old event
    and writes nothing. Which writes are swallowed in this way, that none is when every drawn id is
    written, and how often a call can run because of it. */
module EmitterTheorems {
  import opened Basics
  import opened Events
  import opened Store
  import opened Recovery
  import opened RecoveryTheorems
  import opened Lifecycle
  import opened LifecycleInvariant
  import opened LifecycleTheorems

  // ---------------------------------------------------------------- numbers on the log

  predicate HasNumber(log: seq<Event>, run: string, n: nat) { EmitterId(run, n) in Ids(log) }

  lemma StepIds(log: seq<Event>, sid: string, e: Event)
    requires e in RecoveryEvents(log, sid)
    ensures !e.id.EmitterId?
  {
    if e in DraftEvents(log, DraftKeys(log), sid) {
      DraftMembers(log, DraftKeys(log), sid);
    } else if e in ResultEvents(log, Dangling(log), sid) {
      ResultMembers(log, Dangling(log), sid);
    } else if e in StepEndEvents(OpenSteps(log), DeferredSteps(log), sid) {
      StepEndMembers(OpenSteps(log), DeferredSteps(log), sid);
    }
  }

  /** Recovery draws no number. */
  lemma RecoveryDrawsNone(log: seq<Event>, sid: string, run: string, n: nat)
    ensures HasNumber(Recovered(log, sid), run, n) <==> HasNumber(log, run, n)
  {
    var after := Recovered(log, sid);
    RecoveredTail(log, sid);
    if HasNumber(after, run, n) {
      var e :| e in after && e.id == EmitterId(run, n);
      var i: nat :| i < |after| && after[i] == e;
      if i < |log| {
        assert log[i] in log;
      } else {
        var b := TailOrigin(log, sid, RecoveryEvents(log, sid), i);
        StepIds(log, sid, b);
        assert false;
      }
    }
    if HasNumber(log, run, n) {
      var e :| e in log && e.id == EmitterId(run, n);
      var i: nat :| i < |log| && log[i] == e;
      assert after[i] in after;
    }
  }

  /** A step puts at most the number of the event it adds on the log. */
  lemma NumbersAfter(s: Sys, sid: string, step: Step, run: string, n: nat)
    requires Enabled(s, sid, step)
    ensures HasNumber(Next(s, sid, step).log, run, n)
       <==> HasNumber(s.log, run, n) || (Added(s, step).Some? && Added(s, step).value.id == EmitterId(run, n))
  {
    LogAfter(s, sid, step);
    if Added(s, step).Some? {
      IdsSnoc(s.log, sid, Added(s, step).value);
    } else if step.Recover? {
      RecoveryDrawsNone(s.log, sid, run, n);
    }
  }

  /** Only the lease holder's emitter numbers what is added. */
  lemma AddedByHolder(s: Sys, sid: string, step: Step)
    requires Enabled(s, sid, step) && Added(s, step).Some? && Added(s, step).value.id.EmitterId?
    ensures EmitterOf(s, step).Some? && Added(s, step).value.id == EmitterOf(s, step).value.NextId()
  {
  }

  // ---------------------------------------------------------------- one seeding and what follows it

  /** The worker whose emitter a step starts anew. */
  function Reseeded(step: Step): Option<nat> {
    match step
    case StartRun(f, _) => Some(f)
    case Continue(f, _) => Some(f)
    case Approve(f, _, _) => Some(f)
    case ResumeCall(f, _, _) => Some(f)
    case Materialize(f, _, _) => Some(f)
    case Redeliver(f, _, _) => Some(f)
    case _ => None
  }

  /** The emitter it starts: from zero for a fresh run, otherwise from the length of the cache. */
  function SeedOf(s: Sys, sid: string, step: Step): Emitter
    requires Enabled(s, sid, step) && Reseeded(step).Some?
  {
    match step
    case StartRun(_, run) => Emitter(run, 0)
    case Continue(f, run) => Emitter(run, |s.workers[f].cache.value|)
    case Approve(f, _, run) => Emitter(run, |s.workers[f].cache.value|)
    case ResumeCall(f, key, e) => ResumeEmitter(s.workers[f].cache.value, e.call, key)
    case Materialize(f, key, e) => ResumeEmitter(s.workers[f].cache.value, e.call, key)
    case Redeliver(f, key, call) => ResumeEmitter(s.workers[f].cache.value, call, key)
  }

  /** The worker that writes with its own emitter. */
  function Author(step: Step): Option<nat> {
    match step
    case Admit(f, _) => Some(f)
    case Dispatch(f, _) => Some(f)
    case Running(f, _) => Some(f)
    case Settle(f, _) => Some(f)
    case Defer(f, _) => Some(f)
    case Note(f, _) => Some(f)
    case _ => None
  }

  /** While a worker keeps the lease and its emitter, the numbers of its run on the log are those
      that were there when the emitter was seeded and those the emitter has drawn since. */
  ghost predicate SinceSeed(s: Sys, from: Emitter, seeded: seq<Event>, f: nat) {
    && f <= s.fence
    && (f in s.workers && s.workers[f].em.Some? ==>
          (s.workers[f].em.value.run == from.run && from.n <= s.workers[f].em.value.n
           && (f == s.fence ==> DrawnSince(s.log, from, seeded, s.workers[f].em.value.n))))
  }

  ghost predicate DrawnSince(log: seq<Event>, from: Emitter, seeded: seq<Event>, upTo: nat) {
    && (forall n: nat :: HasNumber(seeded, from.run, n) ==> HasNumber(log, from.run, n))
    && (forall n: nat :: HasNumber(log, from.run, n) ==> HasNumber(seeded, from.run, n) || from.n < n <= upTo)
  }

  /** What one step does to the emitter of a worker it does not reseed. */
  lemma EmitterAfter(s: Sys, sid: string, step: Step, f: nat)
    requires Enabled(s, sid, step) && Reseeded(step) != Some(f) && f <= s.fence
    requires f in Next(s, sid, step).workers && Next(s, sid, step).workers[f].em.Some?
    ensures f in s.workers && s.workers[f].em.Some?
    ensures var em, now := s.workers[f].em.value, Next(s, sid, step).workers[f].em.value;
            && now.run == em.run && em.n <= now.n
            && (EmitterOf(s, step).Some? && f == s.fence ==> EmitterOf(s, step) == Some(em) && now.n == em.n + 1)
  {
  }

  lemma SinceSeedStep(s: Sys, sid: string, step: Step, from: Emitter, seeded: seq<Event>, f: nat)
    requires SinceSeed(s, from, seeded, f) && Reseeded(step) != Some(f)
    ensures SinceSeed(Take(s, sid, step), from, seeded, f)
  {
    if Enabled(s, sid, step) {
      var after := Next(s, sid, step);
      FenceAfter(s, sid, step);
      if f in after.workers && after.workers[f].em.Some? {
        EmitterAfter(s, sid, step, f);
        if f == after.fence { DrawnStep(s, sid, step, from, seeded, f); }
      }
    }
  }

  lemma FenceAfter(s: Sys, sid: string, step: Step)
    requires Enabled(s, sid, step)
    ensures Next(s, sid, step).fence == if step.Claim? then s.fence + 1 else s.fence
  {
  }

  lemma DrawnStep(s: Sys, sid: string, step: Step, from: Emitter, seeded: seq<Event>, f: nat)
    requires Enabled(s, sid, step) && Reseeded(step) != Some(f) && f == s.fence && f in s.workers && s.workers[f].em.Some?
    requires s.workers[f].em.value.run == from.run && from.n <= s.workers[f].em.value.n
    requires DrawnSince(s.log, from, seeded, s.workers[f].em.value.n)
    requires f in Next(s, sid, step).workers && Next(s, sid, step).workers[f].em.Some?
    ensures DrawnSince(Next(s, sid, step).log, from, seeded, Next(s, sid, step).workers[f].em.value.n)
  {
    var after := Next(s, sid, step);
    var now := after.workers[f].em.value.n;
    EmitterAfter(s, sid, step, f);
    forall n: nat ensures HasNumber(s.log, from.run, n) ==> HasNumber(after.log, from.run, n)
      ensures HasNumber(after.log, from.run, n) ==> HasNumber(s.log, from.run, n) || from.n < n <= now
    {
      NumbersAfter(s, sid, step, from.run, n);
      if Added(s, step).Some? && Added(s, step).value.id == EmitterId(from.run, n) { AddedByHolder(s, sid, step); }
    }
  }

  ghost predicate NotReseeded(steps: seq<Step>, f: nat) { forall n :: 0 <= n < |steps| ==> Reseeded(steps[n]) != Some(f) }

  /** What a seeding step leaves. */
  lemma Seeds(s: Sys, sid: string, step: Step)
    requires Enabled(s, sid, step) && Reseeded(step).Some? && Reseeded(step).value <= s.fence
    ensures SinceSeed(Next(s, sid, step), SeedOf(s, sid, step), s.log, Reseeded(step).value)
  {
    var f, from, after := Reseeded(step).value, SeedOf(s, sid, step), Next(s, sid, step);
    SeedLeaves(s, sid, step);
    if f == s.fence {
      forall n: nat ensures HasNumber(s.log, from.run, n) ==> HasNumber(after.log, from.run, n)
        ensures HasNumber(after.log, from.run, n) ==> HasNumber(s.log, from.run, n) || from.n < n <= after.workers[f].em.value.n
      {
        NumbersAfter(s, sid, step, from.run, n);
        if Added(s, step).Some? && Added(s, step).value.id == EmitterId(from.run, n) { AddedByHolder(s, sid, step); }
      }
    }
  }

  lemma SeedLeaves(s: Sys, sid: string, step: Step)
    requires Enabled(s, sid, step) && Reseeded(step).Some?
    ensures var f, from := Reseeded(step).value, SeedOf(s, sid, step);
            && Next(s, sid, step).fence == s.fence
            && f in Next(s, sid, step).workers
            && Next(s, sid, step).workers[f].em == Some(if EmitterOf(s, step).Some? then Emitter(from.run, from.n + 1) else from)
            && (EmitterOf(s, step).Some? ==> EmitterOf(s, step).value == from)
  {
  }

  lemma RunSnoc(sid: string, steps: seq<Step>, step: Step)
    ensures Run(sid, steps + [step]) == Take(Run(sid, steps), sid, step)
  {
    assert (steps + [step])[..|steps|] == steps;
  }

  lemma {:induction false} SeededRun(sid: string, before: seq<Step>, seed: Step, more: seq<Step>)
    requires Enabled(Run(sid, before), sid, seed) && Reseeded(seed).Some? && NotReseeded(more, Reseeded(seed).value)
    ensures SinceSeed(Run(sid, before + [seed] + more), SeedOf(Run(sid, before), sid, seed), Run(sid, before).log, Reseeded(seed).value)
  {
    var f, from := Reseeded(seed).value, SeedOf(Run(sid, before), sid, seed);
    if |more| == 0 {
      assert before + [seed] + more == before + [seed];
      RunSnoc(sid, before, seed);
      RunKeeps(sid, before);
      Seeds(Run(sid, before), sid, seed);
    } else {
      var init, last := more[..|more| - 1], more[|more| - 1];
      assert before + [seed] + more == before + [seed] + init + [last];
      SeededRun(sid, before, seed, init);
      RunSnoc(sid, before + [seed] + init, last);
      SinceSeedStep(Run(sid, before + [seed] + init), sid, last, from, Run(sid, before).log, f);
    }
  }

  /** Exactly which writes of a resumed run are swallowed: the emitter draws the numbers above the
      length its cache had when it was seeded, and the write of a number changes nothing if and only if
      the log held that number of the run at the seeding. */
  lemma SwallowedExactly(sid: string, before: seq<Step>, seed: Step, more: seq<Step>, step: Step)
    requires Enabled(Run(sid, before), sid, seed) && Reseeded(seed).Some? && NotReseeded(more, Reseeded(seed).value)
    requires Author(step) == Reseeded(seed) && Enabled(Run(sid, before + [seed] + more), sid, step)
    ensures var s, from := Run(sid, before + [seed] + more), SeedOf(Run(sid, before), sid, seed);
            && EmitterOf(s, step).Some?
            && EmitterOf(s, step).value.run == from.run && from.n <= EmitterOf(s, step).value.n
            && (Added(s, step).None? <==> HasNumber(Run(sid, before).log, from.run, EmitterOf(s, step).value.n + 1))
            && (Added(s, step).None? ==> Next(s, sid, step).log == s.log)
  {
    var s, from := Run(sid, before + [seed] + more), SeedOf(Run(sid, before), sid, seed);
    SeededRun(sid, before, seed, more);
    WriterHolds(s, sid, step);
    SwallowedSince(s, sid, step, from, Run(sid, before).log);
    if Added(s, step).None? { NothingAdded(s, sid, step); }
  }

  lemma SwallowedSince(s: Sys, sid: string, step: Step, from: Emitter, seeded: seq<Event>)
    requires Enabled(s, sid, step) && Author(step).Some? && SinceSeed(s, from, seeded, Author(step).value)
    ensures EmitterOf(s, step).Some? && EmitterOf(s, step).value.run == from.run && from.n <= EmitterOf(s, step).value.n
    ensures Added(s, step).None? <==> HasNumber(seeded, from.run, EmitterOf(s, step).value.n + 1)
  {
    WriterHolds(s, sid, step);
    assert DrawnSince(s.log, from, seeded, EmitterOf(s, step).value.n);
    assert Swallows(s.log, EmitterOf(s, step).value) <==> HasNumber(s.log, from.run, EmitterOf(s, step).value.n + 1);
  }

  lemma WriterHolds(s: Sys, sid: string, step: Step)
    requires Enabled(s, sid, step) && Author(step).Some?
    ensures Author(step).value == s.fence && s.fence in s.workers && s.workers[s.fence].em.Some?
    ensures EmitterOf(s, step) == s.workers[s.fence].em && Written(step).Some? && !step.Recover?
  {
  }

  /** A resume's own barrier is swallowed exactly when the log holds the number after its cache's
      length; the call is then open to execution all the same. */
  lemma BarrierSwallowedExactly(s: Sys, sid: string, f: nat, key: string, e: Event)
    requires Enabled(s, sid, ResumeCall(f, key, e))
    ensures var step, from := ResumeCall(f, key, e), ResumeEmitter(s.workers[f].cache.value, e.call, key);
            var after := Next(s, sid, step);
            && from.n == |s.workers[f].cache.value|
            && (Added(s, step).None? <==> HasNumber(s.log, from.run, from.n + 1))
            && (Added(s, step).None? ==> after.log == s.log && Enabled(after, sid, ExecuteBare(f, e.call)))
            && (Added(s, step).Some? ==> |after.log| == |s.log| + 1 && Barrier(after.log[|s.log|], e.call)
                                         && Enabled(after, sid, Execute(|s.log|)))
  {
    LogAfter(s, sid, ResumeCall(f, key, e));
  }

  /** A fresh run loses no write until it is resumed. */
  lemma FreshRunLosesNothing(sid: string, before: seq<Step>, f: nat, run: string, more: seq<Step>, step: Step)
    requires Enabled(Run(sid, before), sid, StartRun(f, run)) && NotReseeded(more, f)
    requires Author(step) == Some(f) && Enabled(Run(sid, before + [StartRun(f, run)] + more), sid, step)
    ensures Added(Run(sid, before + [StartRun(f, run)] + more), step).Some?
  {
    SwallowedExactly(sid, before, StartRun(f, run), more, step);
  }

  // ---------------------------------------------------------------- runs that draw no id without an event

  ghost predicate NumbersWithin(log: seq<Event>, most: nat) { forall run, n: nat :: HasNumber(log, run, n) ==> n <= most }

  /** The numbers of the emitter's run do not reach beyond it, nor it beyond what is counted. */
  ghost predicate EmitterCounts(log: seq<Event>, cache: Option<seq<Event>>, em: Emitter) {
    && em.n <= |log| && (cache.Some? ==> em.n <= |cache.value|)
    && forall n: nat :: HasNumber(log, em.run, n) ==> n <= em.n
  }

  ghost predicate CacheCounts(log: seq<Event>, cache: Option<seq<Event>>) {
    cache.Some? ==> |cache.value| <= |log| && NumbersWithin(log, |cache.value|)
  }

  ghost predicate CountsOk(s: Sys) {
    && NumbersWithin(s.log, |s.log|)
    && (s.fence in s.workers ==>
          CacheCounts(s.log, s.workers[s.fence].cache)
          && (s.workers[s.fence].em.Some? ==> EmitterCounts(s.log, s.workers[s.fence].cache, s.workers[s.fence].em.value)))
  }

  lemma NumbersWritten(log: seq<Event>, sid: string, e: Event)
    ensures forall run, n: nat :: HasNumber(Write(log, sid, e), run, n) <==> HasNumber(log, run, n) || e.id == EmitterId(run, n)
  {
    IdsSnoc(log, sid, e);
  }

  /** An emitter that counts is never answered with an old event. */
  lemma CountingWrite(s: Sys, sid: string, em: Emitter, e: Event, jobs: map<string, Phase>)
    requires CountsOk(s) && s.fence in s.workers && EmitterCounts(s.log, s.workers[s.fence].cache, em)
    ensures !Swallows(s.log, em) && CountsOk(Wrote(s, sid, s.fence, em, e, jobs))
  {
    assert !HasNumber(s.log, em.run, em.n + 1);
    NumbersWritten(s.log, sid, Named(em, e));
  }

  /** Resuming counts the cache, and the cache counts the numbers. */
  lemma ResumedCounts(log: seq<Event>, cache: seq<Event>, run: string)
    requires CacheCounts(log, Some(cache))
    ensures EmitterCounts(log, Some(cache), Emitter(run, |cache|))
  {
  }

  lemma ForeignCounts(s: Sys, after: Sys, sid: string, e: Event)
    requires CountsOk(s) && !e.id.EmitterId? && after.log == Write(s.log, sid, e) && after.fence == s.fence
    requires s.fence in after.workers ==> s.fence in s.workers && after.workers[s.fence].em == s.workers[s.fence].em
    requires s.fence in after.workers ==> after.workers[s.fence].cache in {s.workers[s.fence].cache, Cached(s.workers[s.fence].cache, s.log, sid, e)}
    ensures CountsOk(after)
  {
    NumbersWritten(s.log, sid, e);
  }

  lemma RecoveryCounts(s: Sys, sid: string, f: nat)
    requires CountsOk(s) && Enabled(s, sid, Recover(f))
    ensures CountsOk(Next(s, sid, Recover(f)))
  {
    RecoveredTail(s.log, sid);
    forall run, n: nat ensures HasNumber(Recovered(s.log, sid), run, n) <==> HasNumber(s.log, run, n) {
      RecoveryDrawsNone(s.log, sid, run, n);
    }
  }

  /** What a step writes with counts. */
  lemma WriterCounts(s: Sys, sid: string, step: Step)
    requires CountsOk(s) && Enabled(s, sid, step) && EmitterOf(s, step).Some?
    ensures s.fence in s.workers && EmitterCounts(s.log, s.workers[s.fence].cache, EmitterOf(s, step).value)
    ensures !Swallows(s.log, EmitterOf(s, step).value)
  {
    assert s.fence in s.workers;
    if Reseeded(step).Some? {
      ResumedCounts(s.log, s.workers[s.fence].cache.value, EmitterOf(s, step).value.run);
    }
    assert !HasNumber(s.log, EmitterOf(s, step).value.run, EmitterOf(s, step).value.n + 1);
  }

  /** The write of a step keeps the counts; what else it changes is no count. */
  lemma WriteStepCounts(s: Sys, sid: string, step: Step)
    requires CountsOk(s) && Enabled(s, sid, step) && EmitterOf(s, step).Some?
    ensures CountsOk(Next(s, sid, step))
  {
    WriterCounts(s, sid, step);
    var em, after := EmitterOf(s, step).value, Next(s, sid, step);
    CountingWrite(s, sid, em, Written(step).value, after.workers[s.fence].jobs);
    WriteStepLeaves(s, sid, step);
  }

  lemma WriteStepLeaves(s: Sys, sid: string, step: Step)
    requires Enabled(s, sid, step) && EmitterOf(s, step).Some? && s.fence in s.workers
    ensures Written(step).Some?
    ensures var em, after := EmitterOf(s, step).value, Next(s, sid, step);
            && after.fence == s.fence && s.fence in after.workers
            && var wrote := Wrote(s, sid, s.fence, em, Written(step).value, after.workers[s.fence].jobs);
               && after.log == wrote.log && after.workers[s.fence].em == wrote.workers[s.fence].em
               && (after.workers[s.fence].cache == wrote.workers[s.fence].cache || after.workers[s.fence].cache.None?)
  {
  }

  lemma CountsStep(s: Sys, sid: string, step: Step)
    requires CountsOk(s) && !step.Draw?
    ensures CountsOk(Take(s, sid, step))
  {
    if Enabled(s, sid, step) {
      if EmitterOf(s, step).Some? {
        WriteStepCounts(s, sid, step);
      } else if step.Recover? {
        RecoveryCounts(s, sid, step.f);
      } else if Added(s, step).Some? {
        ForeignCounts(s, Next(s, sid, step), sid, Added(s, step).value);
      } else {
        QuietStepCounts(s, sid, step);
      }
    }
  }

  lemma QuietStepCounts(s: Sys, sid: string, step: Step)
    requires CountsOk(s) && Enabled(s, sid, step) && !step.Draw? && !step.Recover? && EmitterOf(s, step).None? && Added(s, step).None?
    ensures CountsOk(Next(s, sid, step))
  {
    var after := Next(s, sid, step);
    LogAfter(s, sid, step);
    if s.fence in s.workers && s.workers[s.fence].cache.Some? && Reseeded(step) == Some(s.fence) && !step.StartRun? {
      ResumedCounts(s.log, s.workers[s.fence].cache.value, SeedOf(s, sid, step).run);
    }
    if step.StartRun? && step.f == s.fence {
      assert forall n: nat :: !HasNumber(s.log, step.run, n);
    }
  }

  /** In a run that draws every id for an event no write is ever swallowed. */
  lemma EveryDrawIsWritten(sid: string, steps: seq<Step>, step: Step)
    requires forall n :: 0 <= n < |steps| ==> !steps[n].Draw?
    requires Enabled(Run(sid, steps), sid, step) && Written(step).Some?
    ensures Added(Run(sid, steps), step).Some?
  {
    NoDrawCounts(sid, steps);
    if EmitterOf(Run(sid, steps), step).Some? { WriterCounts(Run(sid, steps), sid, step); }
  }

  lemma {:induction false} NoDrawCounts(sid: string, steps: seq<Step>)
    requires forall n :: 0 <= n < |steps| ==> !steps[n].Draw?
    ensures CountsOk(Run(sid, steps))
  {
    if |steps| > 0 {
      var before := steps[..|steps| - 1];
      assert forall n :: 0 <= n < |before| ==> before[n] == steps[n];
      NoDrawCounts(sid, before);
      CountsStep(Run(sid, before), sid, steps[|steps| - 1]);
    }
  }

  // ---------------------------------------------------------------- executions without a barrier

  /** A barrier of the call is due and its write changes nothing. */
  predicate Swallowed(s: Sys, sid: string, step: Step, call: string) {
    (step.Dispatch? || step.ResumeCall?) && step.e.call == call && Enabled(s, sid, step) && Added(s, step).None?
  }

  /** How many barriers of the call were swallowed. */
  function SwallowCount(sid: string, steps: seq<Step>, call: string): nat {
    if |steps| == 0 then 0
    else
      var before, last := steps[..|steps| - 1], steps[|steps| - 1];
      SwallowCount(sid, before, call) + if Swallowed(Run(sid, before), sid, last, call) then 1 else 0
  }

  /** The call's permissions to run without a barrier, and the workers about to grant one. */
  function Permits(s: Sys, call: string): set<Bare> { set b | b in s.bare && b.call == call }

  function Unbarred(s: Sys, call: string): set<nat> { set f | f in s.workers && Job(s, f, call) == Some(Marked(None)) }

  lemma GrowsByOne<T>(a: set<T>, b: set<T>, x: T)
    requires a <= b + {x}
    ensures |a| <= |b| + 1
  {
    SubsetSize(a, b + {x});
  }

  lemma UnbarredAfter(s: Sys, sid: string, step: Step, call: string)
    requires Enabled(s, sid, step)
    ensures var now := Unbarred(Next(s, sid, step), call);
            if step.Dispatch? && Swallowed(s, sid, step, call) then now <= Unbarred(s, call) + {step.f}
            else now <= Unbarred(s, call) && (step.Running? && step.e.call == call ==> step.f !in now)
  {
    var after := Next(s, sid, step);
    forall f | f in Unbarred(after, call) ensures f in Unbarred(s, call) || (step.Dispatch? && Swallowed(s, sid, step, call) && f == step.f) {
      JobAfter(s, sid, step, f, call);
    }
    if step.Running? && step.e.call == call { RunningUnmarks(s, sid, step, call); }
  }

  /** Only a swallowed dispatch marks a call without a barrier. */
  lemma JobAfter(s: Sys, sid: string, step: Step, f: nat, call: string)
    requires Enabled(s, sid, step) && Job(Next(s, sid, step), f, call) == Some(Marked(None))
    ensures Job(s, f, call) == Some(Marked(None)) || (step.Dispatch? && Swallowed(s, sid, step, call) && f == step.f)
  {
    if step.Dispatch? {
      DispatchMarks(s, sid, step, f, call);
    } else if Written(step).Some? {
      MarkedBeforeWrite(s, sid, step, f, call);
    } else {
      MarkedBefore(s, sid, step, f, call);
    }
  }

  lemma DispatchMarks(s: Sys, sid: string, step: Step, f: nat, call: string)
    requires Enabled(s, sid, step) && step.Dispatch? && Job(Next(s, sid, step), f, call) == Some(Marked(None))
    ensures Job(s, f, call) == Some(Marked(None)) || (Swallowed(s, sid, step, call) && f == step.f)
  {
  }

  lemma MarkedBeforeWrite(s: Sys, sid: string, step: Step, f: nat, call: string)
    requires Enabled(s, sid, step) && Written(step).Some? && !step.Dispatch? && Job(Next(s, sid, step), f, call) == Some(Marked(None))
    ensures Job(s, f, call) == Some(Marked(None))
  {
  }

  lemma MarkedBefore(s: Sys, sid: string, step: Step, f: nat, call: string)
    requires Enabled(s, sid, step) && Written(step).None? && Job(Next(s, sid, step), f, call) == Some(Marked(None))
    ensures Job(s, f, call) == Some(Marked(None))
  {
  }

  lemma RunningUnmarks(s: Sys, sid: string, step: Step, call: string)
    requires Enabled(s, sid, step) && step.Running? && step.e.call == call
    ensures Job(Next(s, sid, step), step.f, call) != Some(Marked(None))
  {
  }

  lemma PermitsAfter(s: Sys, sid: string, step: Step, call: string)
    requires Enabled(s, sid, step)
    ensures var now := Permits(Next(s, sid, step), call);
            if step.ResumeCall? && Swallowed(s, sid, step, call) then now <= Permits(s, call) + {Bare(step.f, call)}
            else if step.Running? && step.e.call == call && step.f in Unbarred(s, call) then now <= Permits(s, call) + {Bare(step.f, call)}
            else if step.ExecuteBare? && step.call == call then now == Permits(s, call) - {Bare(step.f, call)} && Bare(step.f, call) in Permits(s, call)
            else now <= Permits(s, call)
  {
  }

  lemma BareAfter(s: Sys, sid: string, step: Step, call: string)
    requires Enabled(s, sid, step)
    ensures BareCount(Next(s, sid, step).execs, call)
         == BareCount(s.execs, call) + if step.ExecuteBare? && step.call == call then 1 else 0
  {
    var after := Next(s, sid, step).execs;
    if |after| > |s.execs| { assert after[..|s.execs|] == s.execs; }
  }

  lemma PermitStep(s: Sys, sid: string, step: Step, call: string)
    requires Enabled(s, sid, step)
    ensures var after := Next(s, sid, step);
            BareCount(after.execs, call) + |Permits(after, call)| + |Unbarred(after, call)|
            <= BareCount(s.execs, call) + |Permits(s, call)| + |Unbarred(s, call)| + if Swallowed(s, sid, step, call) then 1 else 0
  {
    var after := Next(s, sid, step);
    BareAfter(s, sid, step, call);
    PermitsAfter(s, sid, step, call);
    UnbarredAfter(s, sid, step, call);
    if step.Dispatch? && Swallowed(s, sid, step, call) {
      GrowsByOne(Unbarred(after, call), Unbarred(s, call), step.f);
      SubsetSize(Permits(after, call), Permits(s, call));
    } else if step.ResumeCall? && Swallowed(s, sid, step, call) {
      GrowsByOne(Permits(after, call), Permits(s, call), Bare(step.f, call));
      SubsetSize(Unbarred(after, call), Unbarred(s, call));
    } else if step.Running? && step.e.call == call && step.f in Unbarred(s, call) {
      GrowsByOne(Permits(after, call), Permits(s, call), Bare(step.f, call));
      SubsetSize(Unbarred(after, call), Unbarred(s, call));
    } else {
      SubsetSize(Unbarred(after, call), Unbarred(s, call));
      SubsetSize(Permits(after, call), Permits(s, call));
    }
  }

  /** Executions without a barrier, past and still permitted, are at most the swallowed barriers. */
  lemma {:induction false} BareExecutionsAreSwallowed(sid: string, steps: seq<Step>, call: string)
    ensures var s := Run(sid, steps);
            BareCount(s.execs, call) + |Permits(s, call)| + |Unbarred(s, call)| <= SwallowCount(sid, steps, call)
  {
    if |steps| > 0 {
      var before, last := steps[..|steps| - 1], steps[|steps| - 1];
      BareExecutionsAreSwallowed(sid, before, call);
      if Enabled(Run(sid, before), sid, last) { PermitStep(Run(sid, before), sid, last, call); }
    } else {
      assert Permits(INIT, call) == {} && Unbarred(INIT, call) == {};
    }
  }

  /** At most once per durable permission, and once more for each barrier the store swallowed. */
  lemma ExecutionsAndSwallowedBarriers(sid: string, steps: seq<Step>, call: string)
    requires call != ""
    ensures var s := Run(sid, steps);
            ExecCount(s.execs, call) <= 1 + |DeferralSet(s.log, call)| + SwallowCount(sid, steps, call)
  {
    ExecutionsAreBounded(sid, steps, call);
    BareExecutionsAreSwallowed(sid, steps, call);
  }

  lemma {:induction false} NoneBare(execs: seq<Exec>, call: string, i: nat)
    requires i < |execs| && BareCount(execs, call) == 0 && execs[i].call == call
    ensures execs[i].barrier.Some?
    decreases |execs|
  {
    if i < |execs| - 1 { NoneBare(execs[..|execs| - 1], call, i); }
  }

  /** As long as no barrier of the call is swallowed, each of its executions follows a durable
      barrier of its own and a call runs at most once more often than it was deferred. */
  lemma UnswallowedRunsHaveBarriers(sid: string, steps: seq<Step>, call: string)
    requires call != "" && SwallowCount(sid, steps, call) == 0
    ensures var s := Run(sid, steps);
            && (forall i :: 0 <= i < |s.execs| && s.execs[i].call == call ==>
                  s.execs[i].barrier.Some? && s.execs[i].barrier.value < s.execs[i].at <= |s.log|
                  && Barrier(s.log[s.execs[i].barrier.value], call))
            && ExecCount(s.execs, call) <= 1 + |DeferralSet(s.log, call)|
  {
    var s := Run(sid, steps);
    ExecutionsAndSwallowedBarriers(sid, steps, call);
    BareExecutionsAreSwallowed(sid, steps, call);
    RunKeeps(sid, steps);
    forall i | 0 <= i < |s.execs| && s.execs[i].call == call ensures s.execs[i].barrier.Some? && ExecOk(s.log, s.execs[i]) {
      NoneBare(s.execs, call, i);
    }
  }

  /** With the check of open barriers, a deferral then lies between any two executions of a call. */
  lemma UnswallowedRunsAreSeparated(sid: string, steps: seq<Step>, call: string, i: nat, j: nat)
    requires call != "" && SwallowCount(sid, steps, call) == 0 && CheckedRun(sid, steps, call)
    requires i < j < |Run(sid, steps).execs|
    requires Run(sid, steps).execs[i].call == call && Run(sid, steps).execs[j].call == call
    ensures var s := Run(sid, steps);
            var a, b := s.execs[i].barrier, s.execs[j].barrier;
            && a.Some? && b.Some? && a != b && a.value < |s.log| && b.value < |s.log|
            && if a.value < b.value then DeferredBetween(s.log, call, a.value, b.value) else DeferredBetween(s.log, call, b.value, a.value)
  {
    var s := Run(sid, steps);
    UnswallowedRunsHaveBarriers(sid, steps, call);
    RunKeeps(sid, steps);
    var a, b := s.execs[i].barrier.value, s.execs[j].barrier.value;
    if a < b { ExecutionsAreSeparated(sid, steps, call, i, j); } else { ExecutionsAreSeparated(sid, steps, call, j, i); }
  }

  /** So it is in every run that draws each id for an event. */
  lemma {:induction false} WrittenDrawsSwallowNothing(sid: string, steps: seq<Step>, call: string)
    requires forall n :: 0 <= n < |steps| ==> !steps[n].Draw?
    ensures SwallowCount(sid, steps, call) == 0
  {
    if |steps| > 0 {
      var before, last := steps[..|steps| - 1], steps[|steps| - 1];
      assert forall n :: 0 <= n < |before| ==> before[n] == steps[n];
      WrittenDrawsSwallowNothing(sid, before, call);
      if Enabled(Run(sid, before), sid, last) && Written(last).Some? { EveryDrawIsWritten(sid, before, last); }
    }
  }

  /** And conversely, a resume whose barrier is swallowed may run the body, with no barrier of its
      own and the log unchanged. */
  lemma SwallowedResumeRuns(sid: string, steps: seq<Step>, f: nat, key: string, e: Event)
    requires Swallowed(Run(sid, steps), sid, ResumeCall(f, key, e), e.call)
    ensures var s, after := Run(sid, steps), Run(sid, steps + [ResumeCall(f, key, e)] + [ExecuteBare(f, e.call)]);
            after.log == s.log && after.execs == s.execs + [Exec(e.call, None, |s.log|)]
  {
    RunSnoc(sid, steps, ResumeCall(f, key, e));
    RunSnoc(sid, steps + [ResumeCall(f, key, e)], ExecuteBare(f, e.call));
    BarrierSwallowedExactly(Run(sid, steps), sid, f, key, e);
  }

  /** What leads from a barrier that is due to the start of the body. */
  function UpToBody(step: Step): seq<Step>
    requires step.Dispatch? || step.ResumeCall?
  {
    if step.Dispatch? then [Running(step.f, step.e.(payload := ToolRunning))] else []
  }

  /** The execution a barrier leads to. */
  function BodyStart(step: Step, swallowed: bool, at: nat): Step
    requires step.Dispatch? || step.ResumeCall?
  {
    if swallowed then ExecuteBare(step.f, step.e.call) else Execute(at)
  }

  /** One more execution, of this call and under this barrier. */
  predicate OneMore(before: seq<Exec>, after: seq<Exec>, call: string, barrier: Option<nat>) {
    |after| == |before| + 1 && after[..|before|] == before && after[|before|].call == call && after[|before|].barrier == barrier
  }

  lemma StartExecutes(s: Sys, sid: string, step: Step, swallowed: bool, at: nat)
    requires (step.Dispatch? || step.ResumeCall?) && Enabled(s, sid, BodyStart(step, swallowed, at))
    requires !swallowed ==> s.log[at].call == step.e.call
    ensures OneMore(s.execs, Next(s, sid, BodyStart(step, swallowed, at)).execs, step.e.call, if swallowed then None else Some(at))
  {
  }

  /** Whether the body starts does not depend on the barrier's write: it may start under the new
      barrier, or under none exactly when the barrier was swallowed. */
  lemma BodyFollows(sid: string, steps: seq<Step>, step: Step)
    requires (step.Dispatch? || step.ResumeCall?) && Enabled(Run(sid, steps), sid, step)
    ensures var s := Run(sid, steps);
            var swallowed := Swallowed(s, sid, step, step.e.call);
            OneMore(s.execs, Run(sid, steps + [step] + UpToBody(step) + [BodyStart(step, swallowed, |s.log|)]).execs, step.e.call,
                    if swallowed then None else Some(|s.log|))
  {
    var s := Run(sid, steps);
    var swallowed := Swallowed(s, sid, step, step.e.call);
    var ready := steps + [step] + UpToBody(step);
    MayStart(sid, steps, step);
    RunSnoc(sid, ready, BodyStart(step, swallowed, |s.log|));
    StartExecutes(Run(sid, ready), sid, step, swallowed, |s.log|);
  }

  lemma MayStart(sid: string, steps: seq<Step>, step: Step)
    requires (step.Dispatch? || step.ResumeCall?) && Enabled(Run(sid, steps), sid, step)
    ensures var s, ready := Run(sid, steps), Run(sid, steps + [step] + UpToBody(step));
            var swallowed := Swallowed(s, sid, step, step.e.call);
            ready.execs == s.execs && Enabled(ready, sid, BodyStart(step, swallowed, |s.log|))
            && (!swallowed ==> ready.log[|s.log|].call == step.e.call)
  {
    var s := Run(sid, steps);
    RunSnoc(sid, steps, step);
    if step.Dispatch? {
      var running := Running(step.f, step.e.(payload := ToolRunning));
      assert steps + [step] + UpToBody(step) == steps + [step] + [running];
      RunSnoc(sid, steps + [step], running);
      DispatchMarksBarrier(s, sid, step.f, step.e);
      RunningPermits(Run(sid, steps + [step]), sid, step.f, step.e.(payload := ToolRunning), |s.log|);
    } else {
      assert steps + [step] + UpToBody(step) == steps + [step];
      ResumePermits(s, sid, step.f, step.key, step.e);
    }
  }

  lemma ResumePermits(s: Sys, sid: string, f: nat, key: string, e: Event)
    requires Enabled(s, sid, ResumeCall(f, key, e))
    ensures var after, swallowed := Next(s, sid, ResumeCall(f, key, e)), Swallowed(s, sid, ResumeCall(f, key, e), e.call);
            after.execs == s.execs && Enabled(after, sid, BodyStart(ResumeCall(f, key, e), swallowed, |s.log|))
            && (!swallowed ==> after.log[|s.log|].call == e.call)
  {
    BarrierSwallowedExactly(s, sid, f, key, e);
  }

  lemma DispatchMarksBarrier(s: Sys, sid: string, f: nat, e: Event)
    requires Enabled(s, sid, Dispatch(f, e))
    ensures var after := Next(s, sid, Dispatch(f, e));
            && after.execs == s.execs && after.fence == f && HasEmitter(after, f)
            && Job(after, f, e.call) == Some(Marked(if Swallowed(s, sid, Dispatch(f, e), e.call) then None else Some(|s.log|)))
            && (!Swallowed(s, sid, Dispatch(f, e), e.call) ==> |after.log| == |s.log| + 1 && after.log[|s.log|].call == e.call)
  {
  }

  lemma RunningPermits(s: Sys, sid: string, f: nat, e: Event, barrier: nat)
    requires f == s.fence && HasEmitter(s, f) && e.payload == ToolRunning && e.call != ""
    requires Job(s, f, e.call) == Some(Marked(None)) || (Job(s, f, e.call) == Some(Marked(Some(barrier))) && barrier < |s.log| && s.log[barrier].call == e.call)
    ensures Enabled(s, sid, Running(f, e))
    ensures var after := Next(s, sid, Running(f, e));
            && after.execs == s.execs
            && (Job(s, f, e.call) == Some(Marked(None)) ==> Enabled(after, sid, ExecuteBare(f, e.call)))
            && (Job(s, f, e.call) == Some(Marked(Some(barrier))) ==>
                  Enabled(after, sid, Execute(barrier)) && after.log[barrier].call == e.call)
  {
  }
}
