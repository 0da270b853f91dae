/** The rolling bounded batch (tools/registry.go:261-370): parallel-safe calls overlap up to a limit,
    exclusive calls are barriers, and nothing starts once the batch was stopped.

    Goroutine completion is a nondeterministic choice among the calls in flight; cancellation is
    observed nondeterministically and never withdrawn. The classifier is a function and each body,
    run at most once, has one answer. */
module Scheduler {

  datatype Call = Call(name: string, id: string)

  datatype Continuation = Continues | Concludes | Defers

  datatype Result = Result(continuation: Continuation, concludesTurn: bool)

  /** What one body returns: possibly no result, possibly an error. */
  datatype Answer = Answer(hasResult: bool, result: Result, failed: bool)

  datatype Outcome =
    | Unfilled(call: Call)
    | Ran(call: Call, answer: Answer)
    | AbortedBeforeDispatch(call: Call, cancelled: bool)

  predicate IsTerminal(a: Answer) {
    a.hasResult && (a.result.continuation == Concludes || a.result.continuation == Defers || a.result.concludesTurn)
  }

  // ---------------------------------------------------------------- what a schedule may do

  /** What happens, in order: a body starts, its answer is collected, cancellation is observed. */
  datatype Act = Start(index: nat) | Collect(index: nat) | Cancelled

  datatype Board = Board(started: nat, running: set<nat>, stopped: bool)

  function NextBoard(b: Board, act: Act, answers: seq<Answer>): Board {
    match act
    case Start(i) => Board(b.started + 1, b.running + {i}, b.stopped)
    case Collect(i) => Board(b.started, b.running - {i}, b.stopped || (i < |answers| && IsTerminal(answers[i])))
    case Cancelled => b.(stopped := true)
  }

  function BoardOf(trace: seq<Act>, answers: seq<Answer>): Board {
    if |trace| == 0 then Board(0, {}, false)
    else NextBoard(BoardOf(trace[..|trace| - 1], answers), trace[|trace| - 1], answers)
  }

  predicate Allowed(b: Board, act: Act, limit: nat, calls: seq<Call>, parallel: Call -> bool) {
    match act
    case Start(i) =>
      && i == b.started && i < |calls| && !b.stopped
      && (if parallel(calls[i]) then |b.running| < limit && (forall j :: j in b.running ==> j < |calls| && parallel(calls[j]))
          else b.running == {})
    case Collect(i) => i in b.running
    case Cancelled => true
  }

  predicate Legal(trace: seq<Act>, limit: nat, calls: seq<Call>, parallel: Call -> bool, answers: seq<Answer>) {
    |trace| > 0 ==>
      (Legal(trace[..|trace| - 1], limit, calls, parallel, answers)
       && Allowed(BoardOf(trace[..|trace| - 1], answers), trace[|trace| - 1], limit, calls, parallel))
  }

  lemma Snoc(trace: seq<Act>, act: Act, limit: nat, calls: seq<Call>, parallel: Call -> bool, answers: seq<Answer>)
    ensures BoardOf(trace + [act], answers) == NextBoard(BoardOf(trace, answers), act, answers)
    ensures Legal(trace + [act], limit, calls, parallel, answers)
       <==> Legal(trace, limit, calls, parallel, answers) && Allowed(BoardOf(trace, answers), act, limit, calls, parallel)
  {
    assert (trace + [act])[..|trace|] == trace;
  }

  lemma LegalSnoc(trace: seq<Act>, board: Board, act: Act, limit: nat, calls: seq<Call>, parallel: Call -> bool,
        answers: seq<Answer>)
    requires Legal(trace, limit, calls, parallel, answers) && BoardOf(trace, answers) == board
    requires Allowed(board, act, limit, calls, parallel)
    ensures Legal(trace + [act], limit, calls, parallel, answers)
    ensures BoardOf(trace + [act], answers) == NextBoard(board, act, answers)
  {
    Snoc(trace, act, limit, calls, parallel, answers);
  }

  // ---------------------------------------------------------------- what that means, at every moment

  /** A body is running after `p` acts when it was started and not yet collected. */
  ghost predicate RunningAt(trace: seq<Act>, p: nat, i: nat)
    requires p <= |trace|
  {
    Start(i) in trace[..p] && Collect(i) !in trace[..p]
  }

  lemma {:induction false} LegalPrefix(trace: seq<Act>, p: nat, limit: nat, calls: seq<Call>,
        parallel: Call -> bool, answers: seq<Answer>)
    requires p <= |trace| && Legal(trace, limit, calls, parallel, answers)
    ensures Legal(trace[..p], limit, calls, parallel, answers)
    decreases |trace|
  {
    if p < |trace| {
      LegalPrefix(trace[..|trace| - 1], p, limit, calls, parallel, answers);
      assert trace[..|trace| - 1][..p] == trace[..p];
    } else {
      assert trace[..p] == trace;
    }
  }

  lemma {:induction false} BoardIsTrue(trace: seq<Act>, limit: nat, calls: seq<Call>, parallel: Call -> bool,
        answers: seq<Answer>, i: nat)
    requires Legal(trace, limit, calls, parallel, answers)
    ensures var b := BoardOf(trace, answers);
            && (Start(i) in trace <==> i < b.started) && (Collect(i) in trace ==> i < b.started)
            && (i in b.running <==> Start(i) in trace && Collect(i) !in trace)
  {
    if |trace| > 0 {
      var before, act := trace[..|trace| - 1], trace[|trace| - 1];
      assert trace == before + [act];
      BoardIsTrue(before, limit, calls, parallel, answers, i);
      if act.Collect? { BoardIsTrue(before, limit, calls, parallel, answers, act.index); }
    }
  }

  lemma {:induction false} BoardIsBounded(trace: seq<Act>, limit: nat, calls: seq<Call>, parallel: Call -> bool,
        answers: seq<Answer>)
    requires Legal(trace, limit, calls, parallel, answers) && limit > 0
    ensures var b := BoardOf(trace, answers);
            && |b.running| <= limit
            && (forall i :: i in b.running ==> i < |calls| && (parallel(calls[i]) || b.running == {i}))
  {
    if |trace| > 0 {
      BoardIsBounded(trace[..|trace| - 1], limit, calls, parallel, answers);
    }
  }

  /** Starts happen in model order, each at most once. */
  lemma {:induction false} StartsInOrder(trace: seq<Act>, p: nat, q: nat, limit: nat, calls: seq<Call>,
        parallel: Call -> bool, answers: seq<Answer>)
    requires Legal(trace, limit, calls, parallel, answers) && p < q < |trace| && trace[p].Start? && trace[q].Start?
    ensures trace[p].index < trace[q].index
  {
    LegalPrefix(trace, q + 1, limit, calls, parallel, answers);
    assert trace[..q + 1][..q] == trace[..q] && trace[..q + 1][q] == trace[q];
    BoardIsTrue(trace[..q], limit, calls, parallel, answers, trace[p].index);
    assert trace[p] == trace[..q][p];
    assert Start(trace[p].index) in trace[..q];
  }

  /** Every answer is collected at most once, after its body started. */
  lemma CollectedOnce(trace: seq<Act>, p: nat, q: nat, limit: nat, calls: seq<Call>, parallel: Call -> bool,
        answers: seq<Answer>)
    requires Legal(trace, limit, calls, parallel, answers) && p < q < |trace| && trace[p].Collect? && trace[q].Collect?
    ensures trace[p].index != trace[q].index && Start(trace[q].index) in trace[..q]
  {
    LegalPrefix(trace, q + 1, limit, calls, parallel, answers);
    assert trace[..q + 1][..q] == trace[..q] && trace[..q + 1][q] == trace[q];
    BoardIsTrue(trace[..q], limit, calls, parallel, answers, trace[q].index);
    assert trace[p] == trace[..q][p];
    assert Collect(trace[p].index) in trace[..q];
  }

  /** At every moment the bodies running are at most `limit`, and an exclusive one runs alone. */
  lemma NeverTooMany(trace: seq<Act>, p: nat, limit: nat, calls: seq<Call>, parallel: Call -> bool,
        answers: seq<Answer>)
    requires Legal(trace, limit, calls, parallel, answers) && limit > 0 && p <= |trace|
    ensures exists running: set<nat> :: |running| <= limit && forall i: nat :: i in running <==> RunningAt(trace, p, i)
    ensures forall i: nat, j: nat :: RunningAt(trace, p, i) && RunningAt(trace, p, j) && i != j
              ==> i < |calls| && j < |calls| && parallel(calls[i]) && parallel(calls[j])
  {
    LegalPrefix(trace, p, limit, calls, parallel, answers);
    BoardIsBounded(trace[..p], limit, calls, parallel, answers);
    var running := BoardOf(trace[..p], answers).running;
    forall i: nat ensures i in running <==> RunningAt(trace, p, i) {
      BoardIsTrue(trace[..p], limit, calls, parallel, answers, i);
    }
  }

  lemma {:induction false} StoppedStays(trace: seq<Act>, p: nat, answers: seq<Answer>)
    requires p <= |trace| && BoardOf(trace[..p], answers).stopped
    ensures BoardOf(trace, answers).stopped
    decreases |trace|
  {
    if p < |trace| {
      assert trace[..|trace| - 1][..p] == trace[..p];
      StoppedStays(trace[..|trace| - 1], p, answers);
    } else {
      assert trace[..p] == trace;
    }
  }

  predicate Stops(act: Act, answers: seq<Answer>) {
    act.Cancelled? || (act.Collect? && act.index < |answers| && IsTerminal(answers[act.index]))
  }

  /** Nothing starts after cancellation was observed or a terminal answer was collected. */
  lemma NothingStartsAfterStop(trace: seq<Act>, p: nat, q: nat, limit: nat, calls: seq<Call>,
        parallel: Call -> bool, answers: seq<Answer>)
    requires Legal(trace, limit, calls, parallel, answers) && p < q < |trace| && Stops(trace[p], answers)
    ensures !trace[q].Start?
  {
    LegalPrefix(trace, q + 1, limit, calls, parallel, answers);
    assert trace[..q + 1][..q] == trace[..q] && trace[..q + 1][q] == trace[q];
    assert trace[..p + 1][..p] == trace[..p] && trace[..p + 1][p] == trace[p];
    assert trace[..q][..p + 1] == trace[..p + 1];
    StoppedStays(trace[..q], p + 1, answers);
  }

  /** The answers that end a turn: a result that concludes it, one way or the other, or defers. An error
      alone does not. */
  predicate EndsTurn(a: Answer) {
    a.hasResult && (a.result.continuation != Continues || a.result.concludesTurn)
  }

  /** Nothing starts once such an answer was collected. */
  lemma NothingStartsAfterConclusion(trace: seq<Act>, p: nat, q: nat, limit: nat, calls: seq<Call>,
        parallel: Call -> bool, answers: seq<Answer>)
    requires |answers| == |calls| && Legal(trace, limit, calls, parallel, answers) && p < q < |trace|
    requires trace[p].Collect? && trace[p].index < |answers| && EndsTurn(answers[trace[p].index])
    ensures !trace[q].Start?
  {
    NothingStartsAfterStop(trace, p, q, limit, calls, parallel, answers);
  }

  lemma {:induction false} StopHasCause(trace: seq<Act>, answers: seq<Answer>) returns (p: nat)
    requires BoardOf(trace, answers).stopped
    ensures p < |trace| && Stops(trace[p], answers)
  {
    var before := trace[..|trace| - 1];
    if BoardOf(before, answers).stopped {
      p := StopHasCause(before, answers);
      assert trace[p] == before[p];
    } else {
      p := |trace| - 1;
    }
  }

  // ---------------------------------------------------------------- the batch

  /** The outcome of a call at the end: its own answer if it started, otherwise an abort, filed under
      cancellation or under the conclusion of the turn. */
  predicate Settled(outcome: Outcome, call: Call, started: bool, answer: Answer, cancelled: bool) {
    outcome.call == call && if started then outcome == Ran(call, answer) else outcome == AbortedBeforeDispatch(call, cancelled)
  }

  /** What the outcome slot of a call holds at any moment: nothing while the call waits or runs, its
      own answer once collected, an abort and its cause when it was passed over. */
  predicate Slot(outcome: Outcome, call: Call, answer: Answer, started: bool, passed: bool, running: bool, cancelled: bool) {
    && outcome.call == call
    && (!passed || running ==> outcome.Unfilled?)
    && (started && !running ==> outcome == Ran(call, answer))
    && (passed && !started ==> outcome == AbortedBeforeDispatch(call, cancelled))
  }

  ghost predicate Slots(outcomes: seq<Outcome>, calls: seq<Call>, answers: seq<Answer>, started: nat, next: nat,
        running: set<nat>, cancelled: bool)
    requires |outcomes| == |calls| == |answers|
  {
    forall i :: 0 <= i < |calls| ==> Slot(outcomes[i], calls[i], answers[i], i < started, i < next, i in running, cancelled)
  }

  /** While nothing is passed over the cause does not matter. */
  lemma SlotsUncancelled(outcomes: seq<Outcome>, calls: seq<Call>, answers: seq<Answer>, n: nat, running: set<nat>, before: bool, after: bool)
    requires |outcomes| == |calls| == |answers| && Slots(outcomes, calls, answers, n, n, running, before)
    ensures Slots(outcomes, calls, answers, n, n, running, after)
  {
    forall i | 0 <= i < |calls| ensures Slot(outcomes[i], calls[i], answers[i], i < n, i < n, i in running, after) {
      assert Slot(outcomes[i], calls[i], answers[i], i < n, i < n, i in running, before);
    }
  }

  lemma SlotsAfterLaunch(outcomes: seq<Outcome>, calls: seq<Call>, answers: seq<Answer>, n: nat, running: set<nat>, cancelled: bool)
    requires |outcomes| == |calls| == |answers| && n < |calls| && Slots(outcomes, calls, answers, n, n, running, cancelled)
    ensures Slots(outcomes, calls, answers, n + 1, n + 1, running + {n}, cancelled)
  {
    forall i | 0 <= i < |calls|
      ensures Slot(outcomes[i], calls[i], answers[i], i < n + 1, i < n + 1, i in running + {n}, cancelled)
    {
      assert Slot(outcomes[i], calls[i], answers[i], i < n, i < n, i in running, cancelled);
    }
  }

  /** Filing one slot: an answer collected, or a call passed over. */
  lemma SlotsAfterFiling(outcomes: seq<Outcome>, calls: seq<Call>, answers: seq<Answer>, started: nat, next: nat,
        next': nat,
                         running: set<nat>, running': set<nat>, k: nat, filed: Outcome, cancelled: bool)
    requires |outcomes| == |calls| == |answers| && k < |calls| && Slots(outcomes, calls, answers, started, next, running, cancelled)
    requires Slot(filed, calls[k], answers[k], k < started, k < next', k in running', cancelled)
    requires running' - {k} == running - {k} && (next' == next || (k == next && next' == next + 1))
    ensures Slots(outcomes[k := filed], calls, answers, started, next', running', cancelled)
  {
    forall i | 0 <= i < |calls| && i != k
      ensures Slot(outcomes[i], calls[i], answers[i], i < started, i < next', i in running', cancelled)
    {
      assert Slot(outcomes[i], calls[i], answers[i], i < started, i < next, i in running, cancelled);
      assert i in running - {k} <==> i in running;
      assert i in running' - {k} <==> i in running';
    }
  }

  /** The variables the source's closures share. */
  class Batch {
    const calls: seq<Call>
    const answers: seq<Answer>
    const parallel: Call -> bool
    const limit: nat
    const outcomes: array<Outcome>
    var running: set<nat>
    var active: nat
    var next: nat
    var terminal: bool
    var cancelled: bool
    ghost var trace: seq<Act>
    ghost var started: nat

    constructor (limit: int, calls: seq<Call>, parallel: Call -> bool, answers: seq<Answer>)
      requires |answers| == |calls|
      ensures Valid() && fresh(outcomes) && next == 0 && active == 0 && trace == [] && !terminal && !cancelled
      ensures this.calls == calls && this.answers == answers && this.parallel == parallel
      ensures this.limit == if limit <= 0 || limit > |calls| then |calls| else limit
    {
      this.calls, this.answers, this.parallel := calls, answers, parallel;
      this.limit := if limit <= 0 || limit > |calls| then |calls| else limit;
      outcomes := new Outcome[|calls|](i requires 0 <= i < |calls| => Unfilled(calls[i]));
      running, active, next, terminal, cancelled, trace, started := {}, 0, 0, false, false, [], 0;
    }

    ghost predicate Valid()
      reads this, outcomes
    {
      && |answers| == |calls| == outcomes.Length && limit <= |calls| && (|calls| > 0 ==> limit > 0)
      && active == |running| && started <= next <= |calls|
      && Traced() && (forall i :: i in running ==> i < started)
      && (started < next ==> terminal || cancelled)
      && Slots(outcomes[..], calls, answers, started, next, running, cancelled)
    }

    /** The context's error: once set it stays. */
    method Err() returns (err: bool)
      requires Valid() && next == started
      modifies this`cancelled, this`trace
      ensures Valid() && err == cancelled && (old(cancelled) ==> cancelled)
    {
      var now: bool := *;
      if now && !cancelled {
        Record(Cancelled);
        SlotsUncancelled(outcomes[..], calls, answers, next, running, cancelled, true);
        cancelled := true;
      }
      err := cancelled;
    }

    /** The trace side of `Valid`, and the slots. */
    ghost predicate Traced()
      reads this
    {
      && Legal(trace, limit, calls, parallel, answers) && BoardOf(trace, answers) == Board(started, running, terminal || cancelled)
      && (cancelled <==> Cancelled in trace)
    }

    ghost method Record(act: Act)
      requires Traced() && Allowed(BoardOf(trace, answers), act, limit, calls, parallel)
      modifies this`trace
      ensures trace == old(trace) + [act] && Legal(trace, limit, calls, parallel, answers)
      ensures Cancelled in trace <==> cancelled || act.Cancelled?
      ensures BoardOf(trace, answers) == NextBoard(Board(started, running, terminal || cancelled), act, answers)
    {
      LegalSnoc(trace, Board(started, running, terminal || cancelled), act, limit, calls, parallel, answers);
      trace := trace + [act];
    }

    predicate MayLaunch(index: nat)
      reads this
    {
      index < |calls| && if parallel(calls[index]) then active < limit && AllParallel() else active == 0
    }

    predicate AllParallel()
      reads this
    {
      forall j :: j in running ==> j < |calls| && parallel(calls[j])
    }

    ghost method RecordStart(index: nat)
      requires Valid() && index == next == started && !terminal && !cancelled && MayLaunch(index)
      modifies this`trace
      ensures Legal(trace, limit, calls, parallel, answers) && Cancelled !in trace
      ensures BoardOf(trace, answers) == Board(started + 1, running + {index}, false)
    {
      assert Allowed(Board(started, running, false), Start(index), limit, calls, parallel);
      Record(Start(index));
    }

    method Launch(index: nat)
      requires Valid() && index == next == started && !terminal && !cancelled && MayLaunch(index)
      modifies this`active, this`running, this`next, this`trace, this`started
      ensures Valid() && next == started == old(next) + 1 && active == old(active) + 1 && running == old(running) + {index}
    {
      SlotsAfterLaunch(outcomes[..], calls, answers, index, running, cancelled);
      RecordStart(index);
      Begin(index);
    }

    /** The bookkeeping of a start that is recorded already. */
    method Begin(index: nat)
      requires |answers| == |calls| == outcomes.Length && limit <= |calls| && (|calls| > 0 ==> limit > 0)
      requires active == |running| && index == started == next < |calls| && !terminal && !cancelled
      requires forall i :: i in running ==> i < started
      requires Legal(trace, limit, calls, parallel, answers)
      requires BoardOf(trace, answers) == Board(started + 1, running + {index}, false) && Cancelled !in trace
      requires Slots(outcomes[..], calls, answers, index + 1, index + 1, running + {index}, cancelled)
      modifies this`active, this`running, this`next, this`started
      ensures Valid() && next == started == old(next) + 1 && active == old(active) + 1 && running == old(running) + {index}
    {
      active, running := active + 1, running + {index};
      started, next := started + 1, next + 1;
    }

    /** Waits for any one running body and files its answer. */
    method DrainOne()
      requires Valid() && active > 0
      modifies this`active, this`running, this`trace, this`terminal, outcomes
      ensures Valid() && active == old(active) - 1 && running <= old(running)
      ensures old(terminal) ==> terminal
    {
      assert running != {};
      var index :| index in running;
      Record(Collect(index));
      var filed := Ran(calls[index], answers[index]);
      SlotsAfterFiling(outcomes[..], calls, answers, started, next, next, running, running - {index}, index, filed, cancelled);
      outcomes[index] := filed;
      active, running := active - 1, running - {index};
      terminal := terminal || IsTerminal(answers[index]);
    }

    method DrainAll()
      requires Valid()
      modifies this`active, this`running, this`trace, this`terminal, outcomes
      ensures Valid() && active == 0 && (old(terminal) ==> terminal) && (old(active) == 0 ==> terminal == old(terminal))
    {
      while active > 0
        invariant Valid() && (old(terminal) ==> terminal) && (old(active) == 0 ==> active == 0 && terminal == old(terminal))
        decreases active
      {
        DrainOne();
      }
    }

    /** Files an abort for every call not yet started. */
    method MarkUnstarted()
      requires Valid() && (terminal || cancelled)
      modifies this`next, outcomes
      ensures Valid() && next == |calls|
    {
      while next < |calls|
        invariant Valid() && cancelled == old(cancelled)
        decreases |calls| - next
      {
        var filed := AbortedBeforeDispatch(calls[next], cancelled);
        SlotsAfterFiling(outcomes[..], calls, answers, started, next, next + 1, running, running, next, filed, cancelled);
        outcomes[next] := filed;
        next := next + 1;
      }
    }

    /** Runs an exclusive call by itself. */
    method RunExclusive()
      requires Valid() && next == started < |calls| && active == 0 && !terminal && !cancelled && !parallel(calls[next])
      modifies this`active, this`running, this`next, this`trace, this`started, this`terminal, outcomes
      ensures Valid() && next == started == old(next) + 1 && active == 0
    {
      Launch(next);
      DrainOne();
    }

    /** Starts parallel-safe calls while there is room. */
    method LaunchSafe()
      requires Valid() && next == started && !terminal && !cancelled && AllParallel()
      modifies this`active, this`running, this`next, this`trace, this`started
      ensures Valid() && next == started && AllParallel() && old(next) <= next && 2 * next - active >= 2 * old(next) - old(active)
      ensures next > old(next) ==> 2 * next - active > 2 * old(next) - old(active)
      ensures next == old(next) ==> active == old(active)
      ensures next < |calls| && parallel(calls[next]) ==> active >= limit
    {
      while next < |calls| && active < limit && parallel(calls[next])
        invariant Valid() && next == started && AllParallel() && old(next) <= next
        invariant next - old(next) == active - old(active)
        decreases |calls| - next
      {
        Launch(next);
      }
    }

    /** The batch between two turns of the loop. */
    ghost predicate Steady()
      reads this, outcomes
    {
      Valid() && next == started && (!terminal && !cancelled ==> AllParallel())
    }

    /** What is left to do. */
    function Left(): int
      reads this
    {
      2 * (|calls| - next) + active
    }

    /** Stopped: nothing more starts, what runs is drained. */
    method Abandon()
      requires Valid() && (terminal || cancelled)
      modifies this, outcomes
      ensures Valid() && next == |calls| && active == 0
    {
      MarkUnstarted();
      DrainAll();
    }

    /** An exclusive call waits for everything in flight, then runs by itself. */
    method Barrier() returns (stop: bool)
      requires Steady() && next < |calls| && !terminal && !cancelled && !parallel(calls[next])
      modifies this, outcomes
      ensures Valid() && (stop ==> next == |calls| && active == 0)
      ensures !stop ==> Steady() && Left() < old(Left())
    {
      DrainAll();
      stop := Err();
      Pass(stop);
    }

    /** Nothing is in flight: the batch is stopped, or concluded, or the exclusive call runs. */
    method Pass(stop: bool)
      requires Valid() && next == started < |calls| && active == 0 && stop == cancelled && !parallel(calls[next])
      modifies this, outcomes
      ensures Valid() && active == 0 && (stop ==> next == |calls|)
      ensures !stop ==> Steady() && next == if old(terminal) then old(next) else old(next) + 1
    {
      if stop {
        MarkUnstarted();
      } else if !terminal {
        RunExclusive();
      }
    }

    method Run()
      requires Valid() && next == 0 && active == 0 && trace == [] && !terminal && !cancelled
      modifies this, outcomes
      ensures Valid() && next == |calls| && active == 0
    {
      while next < |calls| || active > 0
        invariant Steady()
        decreases Left()
      {
        var stop := Err();
        if stop || terminal {
          Abandon();
          break;
        }
        LaunchSafe();
        if next < |calls| && !parallel(calls[next]) {
          stop := Barrier();
          if stop {
            break;
          }
          continue;
        }
        if active > 0 {
          DrainOne();
        }
      }
    }
  }

  /** A whole batch: every outcome keeps its own call; the calls that started are a prefix and
      report their own answers; the rest are marked aborted, which happens only after cancellation
      was observed or a terminal answer was collected; and what happened was a legal schedule. */
  method RunRollingBatch(limit: int, calls: seq<Call>, parallel: Call -> bool, answers: seq<Answer>)
    returns (outcomes: seq<Outcome>, ghost started: nat, ghost trace: seq<Act>)
    requires |answers| == |calls|
    ensures |outcomes| == |calls| && started <= |calls|
    ensures forall i :: 0 <= i < |calls| ==> Settled(outcomes[i], calls[i], i < started, answers[i], Cancelled in trace)
    ensures started < |calls| ==> exists p :: 0 <= p < |trace| && Stops(trace[p], answers)
    ensures started < |calls| && Cancelled !in trace ==> exists k: nat :: k < |answers| && Collect(k) in trace && EndsTurn(answers[k])
    ensures Legal(trace, if limit <= 0 || limit > |calls| then |calls| else limit, calls, parallel, answers)
    ensures BoardOf(trace, answers).started == started && BoardOf(trace, answers).running == {}
  {
    var batch := new Batch(limit, calls, parallel, answers);
    batch.Run();
    outcomes, started, trace := batch.outcomes[..], batch.started, batch.trace;
    assert batch.running == {};
    if started < |calls| {
      var p := StopHasCause(trace, answers);
      assert trace[p] in trace;
      assert trace[p] == Cancelled || (trace[p] == Collect(trace[p].index) && EndsTurn(answers[trace[p].index]));
    }
  }
}
