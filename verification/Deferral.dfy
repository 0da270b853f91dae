/** Deferred tool calls (agent/loop.go:751-873): the record the resume guard reads, the list of
    calls waiting to be resumed, and why the two folds agree and survive recovery. */
module Deferral {
  import opened Basics
  import opened Events
  import opened Store
  import opened Recovery
  import opened RecoveryTheorems

  // ---------------------------------------------------------------- one call, one key

  /** What `deferredToolRecord` reports of a call under one resume key. */
  datatype Record = Record(deferred: Option<Event>, resultExists: bool, resumeStarted: bool, resumeMaterialized: bool)

  const NO_RECORD := Record(None, false, false, false)

  function NextRecord(r: Record, e: Event, call: string, key: string): Record {
    if e.call != call then r
    else match e.payload
      case ToolDeferred(k) => if k == key then r.(deferred := Some(e), resultExists := false, resumeStarted := false) else r
      case ToolResumeStarted(materialized) =>
        if r.deferred.Some? then r.(resumeStarted := true, resumeMaterialized := materialized) else r
      case ToolResult(_, _, _, _) => if r.deferred.Some? then r.(resultExists := true) else r
      case _ => r
  }

  function RecordOf(log: seq<Event>, call: string, key: string): Record {
    if |log| == 0 then NO_RECORD else NextRecord(RecordOf(log[..|log| - 1], call, key), log[|log| - 1], call, key)
  }

  method DeferredToolRecord(log: seq<Event>, call: string, key: string) returns (r: Record)
    ensures r == RecordOf(log, call, key)
  {
    r := NO_RECORD;
    for i := 0 to |log|
      invariant r == RecordOf(log[..i], call, key)
    {
      Snoc(log, i);
      if log[i].call != call {
        continue;
      }
      match log[i].payload {
        case ToolDeferred(k) =>
          if k == key { r := r.(deferred := Some(log[i]), resultExists := false, resumeStarted := false); }
        case ToolResumeStarted(materialized) =>
          if r.deferred.Some? { r := r.(resumeStarted := true, resumeMaterialized := materialized); }
        case ToolResult(_, _, _, _) =>
          if r.deferred.Some? { r := r.(resultExists := true); }
        case _ =>
      }
    }
    assert log[..|log|] == log;
  }

  /** A deferral under the key that nothing resumed or settled since. */
  ghost predicate Untouched(log: seq<Event>, call: string, key: string, i: nat) {
    && i < |log| && log[i].call == call && log[i].payload == ToolDeferred(key)
    && forall j :: i < j < |log| && log[j].call == call ==> !log[j].payload.ToolResumeStarted? && !log[j].payload.ToolResult?
  }

  lemma UntouchedSnoc(log: seq<Event>, call: string, key: string, i: nat)
    requires |log| > 0 && i < |log| - 1
    ensures Untouched(log, call, key, i)
       <==> Untouched(log[..|log| - 1], call, key, i)
            && !(log[|log| - 1].call == call && (log[|log| - 1].payload.ToolResumeStarted? || log[|log| - 1].payload.ToolResult?))
  {
    var before := log[..|log| - 1];
    assert forall j :: 0 <= j < |before| ==> before[j] == log[j];
  }

  predicate Resumable(r: Record) { r.deferred.Some? && !r.resumeStarted && !r.resultExists }

  /** The resume guard lets a call through exactly when it was deferred under the key and neither
      resumed nor settled since. */
  lemma {:induction false} ResumableExactly(log: seq<Event>, call: string, key: string)
    ensures Resumable(RecordOf(log, call, key)) <==> exists i: nat :: Untouched(log, call, key, i)
  {
    if |log| > 0 {
      var before, last := log[..|log| - 1], log[|log| - 1];
      ResumableExactly(before, call, key);
      if exists i: nat :: Untouched(before, call, key, i) {
        var i: nat :| Untouched(before, call, key, i);
        UntouchedSnoc(log, call, key, i);
      }
      if exists i: nat :: Untouched(log, call, key, i) {
        var i: nat :| Untouched(log, call, key, i);
        if i < |log| - 1 { UntouchedSnoc(log, call, key, i); }
      }
      if last.call == call && last.payload == ToolDeferred(key) {
        assert Untouched(log, call, key, |log| - 1);
      }
    }
  }

  // What the record says, by positions of the log.

  ghost predicate IsLastDeferral(log: seq<Event>, call: string, key: string, d: nat) {
    && d < |log| && log[d].call == call && log[d].payload == ToolDeferred(key)
    && forall j :: d < j < |log| && log[j].call == call ==> log[j].payload != ToolDeferred(key)
  }

  ghost predicate Deferred(log: seq<Event>, call: string, key: string) {
    exists d :: 0 <= d < |log| && log[d].call == call && log[d].payload == ToolDeferred(key)
  }

  ghost predicate ResultAfter(log: seq<Event>, call: string, d: nat) {
    exists j :: d < j < |log| && log[j].call == call && log[j].payload.ToolResult?
  }

  ghost predicate StartAfter(log: seq<Event>, call: string, d: nat) {
    exists j :: d < j < |log| && log[j].call == call && log[j].payload.ToolResumeStarted?
  }

  lemma LastDeferralSnoc(log: seq<Event>, call: string, key: string, d: nat)
    requires |log| > 0 && d < |log| - 1
    ensures IsLastDeferral(log, call, key, d)
       <==> IsLastDeferral(log[..|log| - 1], call, key, d)
            && !(log[|log| - 1].call == call && log[|log| - 1].payload == ToolDeferred(key))
    ensures ResultAfter(log, call, d)
       <==> ResultAfter(log[..|log| - 1], call, d) || (log[|log| - 1].call == call && log[|log| - 1].payload.ToolResult?)
    ensures StartAfter(log, call, d)
       <==> StartAfter(log[..|log| - 1], call, d) || (log[|log| - 1].call == call && log[|log| - 1].payload.ToolResumeStarted?)
  {
    var before := log[..|log| - 1];
    assert forall j :: 0 <= j < |before| ==> before[j] == log[j];
  }

  /** The record is that of the newest deferral under the key: it is resumed and settled by what comes
      after that deferral. */
  lemma {:induction false} RecordExactly(log: seq<Event>, call: string, key: string, d: nat)
    ensures IsLastDeferral(log, call, key, d) ==>
              var r := RecordOf(log, call, key);
              r.deferred == Some(log[d]) && (r.resultExists <==> ResultAfter(log, call, d)) && (r.resumeStarted <==> StartAfter(log, call, d))
    ensures RecordOf(log, call, key).deferred.Some? <==> Deferred(log, call, key)
  {
    if |log| > 0 {
      var before, last := log[..|log| - 1], log[|log| - 1];
      assert forall j :: 0 <= j < |before| ==> before[j] == log[j];
      RecordExactly(before, call, key, d);
      if d < |log| - 1 { LastDeferralSnoc(log, call, key, d); }
    }
  }

  /** The newest start of a resume since the call was first deferred under the key. */
  ghost predicate IsLastStart(log: seq<Event>, call: string, key: string, j: nat) {
    && j < |log| && log[j].call == call && log[j].payload.ToolResumeStarted? && Deferred(log[..j], call, key)
    && forall k :: j < k < |log| && log[k].call == call ==> !log[k].payload.ToolResumeStarted?
  }

  lemma LastStartSnoc(log: seq<Event>, call: string, key: string, j: nat)
    requires |log| > 0 && j < |log| - 1
    ensures IsLastStart(log, call, key, j)
       <==> IsLastStart(log[..|log| - 1], call, key, j) && !(log[|log| - 1].call == call && log[|log| - 1].payload.ToolResumeStarted?)
  {
    var before := log[..|log| - 1];
    assert forall k :: 0 <= k < |before| ==> before[k] == log[k];
    assert before[..j] == log[..j];
  }

  ghost predicate Announced(log: seq<Event>, call: string, key: string) {
    exists j: nat :: IsLastStart(log, call, key, j) && log[j].payload.materialized
  }

  lemma AnnouncedByStart(log: seq<Event>, call: string, key: string)
    requires |log| > 0 && log[|log| - 1].call == call && log[|log| - 1].payload.ToolResumeStarted?
    ensures Announced(log, call, key) <==> Deferred(log[..|log| - 1], call, key) && log[|log| - 1].payload.materialized
  {
    var n := |log| - 1;
    if Deferred(log[..n], call, key) { assert IsLastStart(log, call, key, n); }
    forall j: nat | IsLastStart(log, call, key, j) ensures j == n {}
  }

  lemma AnnouncedOtherwise(log: seq<Event>, call: string, key: string)
    requires |log| > 0 && !(log[|log| - 1].call == call && log[|log| - 1].payload.ToolResumeStarted?)
    ensures Announced(log, call, key) <==> Announced(log[..|log| - 1], call, key)
  {
    var before, n := log[..|log| - 1], |log| - 1;
    forall j: nat | j < n ensures (IsLastStart(log, call, key, j) <==> IsLastStart(before, call, key, j)) && log[j] == before[j] {
      LastStartSnoc(log, call, key, j);
    }
  }

  lemma {:induction false} NeverAnnounced(log: seq<Event>, call: string, key: string)
    requires !Deferred(log, call, key)
    ensures !RecordOf(log, call, key).resumeMaterialized
  {
    if |log| > 0 {
      var before := log[..|log| - 1];
      assert forall j :: 0 <= j < |before| ==> before[j] == log[j];
      NeverAnnounced(before, call, key);
      RecordExactly(before, call, key, 0);
    }
  }

  /** Whether a stored result was announced is told by the newest start of a resume, and survives a
      further deferral. */
  lemma {:induction false} MaterializedExactly(log: seq<Event>, call: string, key: string)
    ensures RecordOf(log, call, key).resumeMaterialized <==> Announced(log, call, key)
  {
    if |log| > 0 {
      var before, last := log[..|log| - 1], log[|log| - 1];
      MaterializedExactly(before, call, key);
      RecordExactly(before, call, key, 0);
      if last.call == call && last.payload.ToolResumeStarted? {
        AnnouncedByStart(log, call, key);
        if !Deferred(before, call, key) { NeverAnnounced(before, call, key); }
      } else {
        AnnouncedOtherwise(log, call, key);
      }
    }
  }

  // ---------------------------------------------------------------- all waiting calls

  datatype Resume = Resume(key: string, pending: bool, started: bool)

  const NO_RESUME := Resume("", false, false)

  function NextResume(s: Resume, e: Event, call: string): Resume {
    if e.call != call then s
    else match e.payload
      case ToolDeferred(k) => if k != "" then Resume(k, true, false) else s
      case ToolResumeStarted(_) => s.(started := true)
      case ToolResult(_, _, _, _) => s.(pending := false, started := false)
      case _ => s
  }

  function ResumeOf(log: seq<Event>, call: string): Resume {
    if |log| == 0 then NO_RESUME else NextResume(ResumeOf(log[..|log| - 1], call), log[|log| - 1], call)
  }

  /** Every call that any event names, in order of first mention. */
  function MentionOrder(log: seq<Event>): seq<string> {
    if |log| == 0 then [] else Remember(MentionOrder(log[..|log| - 1]), log[|log| - 1].call)
  }

  datatype Request = Request(call: string, key: string)

  predicate Waits(s: Resume) { s.pending && !s.started }

  function PendingIn(log: seq<Event>, order: seq<string>): seq<Request> {
    if |order| == 0 then []
    else
      var call := order[|order| - 1];
      var s := ResumeOf(log, call);
      PendingIn(log, order[..|order| - 1]) + (if Waits(s) then [Request(call, s.key)] else [])
  }

  function PendingResumes(log: seq<Event>): seq<Request> { PendingIn(log, MentionOrder(log)) }

  method PendingDeferredToolResumes(log: seq<Event>) returns (requests: seq<Request>)
    ensures requests == PendingResumes(log)
  {
    var states: map<string, Resume> := map[];
    var order: seq<string> := [];
    for i := 0 to |log|
      invariant order == MentionOrder(log[..i])
      invariant forall c :: c != "" ==> ResumeOf(log[..i], c) == (if c in states then states[c] else NO_RESUME)
    {
      Snoc(log, i);
      var e := log[i];
      if e.call == "" {
        continue;
      }
      var current := if e.call in states then states[e.call] else NO_RESUME;
      if e.call !in order {
        order := order + [e.call];
      }
      match e.payload {
        case ToolDeferred(k) =>
          if k != "" { states := states[e.call := Resume(k, true, false)]; }
        case ToolResumeStarted(_) => states := states[e.call := current.(started := true)];
        case ToolResult(_, _, _, _) => states := states[e.call := current.(pending := false, started := false)];
        case _ =>
      }
    }
    assert log[..|log|] == log;
    MentionsNamed(log);
    requests := [];
    for i := 0 to |order|
      invariant requests == PendingIn(log, order[..i])
    {
      Snoc(order, i);
      assert order[i] in order;
      if order[i] in states && states[order[i]].pending && !states[order[i]].started {
        requests := requests + [Request(order[i], states[order[i]].key)];
      }
    }
    assert order[..|order|] == order;
  }

  lemma {:induction false} MentionsNamed(log: seq<Event>)
    ensures "" !in MentionOrder(log)
  {
    if |log| > 0 {
      MentionsNamed(log[..|log| - 1]);
    }
  }

  lemma {:induction false} Mentioned(log: seq<Event>, i: nat)
    requires i < |log| && log[i].call != ""
    ensures log[i].call in MentionOrder(log)
    decreases |log|
  {
    if i < |log| - 1 {
      Mentioned(log[..|log| - 1], i);
    }
  }

  lemma {:induction false} PendingMembers(log: seq<Event>, order: seq<string>, q: Request)
    ensures q in PendingIn(log, order) <==> q.call in order && Waits(ResumeOf(log, q.call)) && q.key == ResumeOf(log, q.call).key
  {
    if |order| > 0 {
      assert order == order[..|order| - 1] + [order[|order| - 1]];
      PendingMembers(log, order[..|order| - 1], q);
    }
  }

  // ---------------------------------------------------------------- the folds agree

  /** The newest non-empty resume key of a call. */
  function LatestKey(log: seq<Event>, call: string): string {
    if |log| == 0 then ""
    else
      var e := log[|log| - 1];
      if e.call == call && e.payload.ToolDeferred? && e.payload.resumeKey != "" then e.payload.resumeKey
      else LatestKey(log[..|log| - 1], call)
  }

  /** The two folds of one call, step by step. */
  lemma {:induction false} FoldsInStep(log: seq<Event>, call: string)
    ensures ResumeOf(log, call).key == LatestKey(log, call)
    ensures LatestKey(log, call) == "" ==> !ResumeOf(log, call).pending
    ensures var r := RecordOf(log, call, LatestKey(log, call));
            LatestKey(log, call) != "" ==>
              (r.deferred.Some? && r.resultExists == !ResumeOf(log, call).pending
               && (ResumeOf(log, call).pending ==> r.resumeStarted == ResumeOf(log, call).started))
  {
    if |log| > 0 {
      FoldsInStep(log[..|log| - 1], call);
    }
  }

  /** The list of pending resumes and the record behind the resume guard never disagree: a call
      waits under a key exactly when that is its newest key and its record is deferred, unstarted
      and without result. */
  lemma FoldsAgree(log: seq<Event>, call: string, key: string)
    ensures Request(call, key) in PendingResumes(log)
      <==> call != "" && key != "" && key == LatestKey(log, call)
           && Resumable(RecordOf(log, call, key))
  {
    PendingMembers(log, MentionOrder(log), Request(call, key));
    MentionsNamed(log);
    FoldsInStep(log, call);
    if call != "" && LatestKey(log, call) != "" {
      KeyIsMentioned(log, call);
    }
  }

  lemma {:induction false} KeyIsMentioned(log: seq<Event>, call: string)
    requires call != "" && LatestKey(log, call) != ""
    ensures call in MentionOrder(log)
  {
    var e := log[|log| - 1];
    if e.call != call {
      KeyIsMentioned(log[..|log| - 1], call);
    }
  }

  // ---------------------------------------------------------------- recovery

  /** A waiting call was deferred and nothing has resumed it. */
  lemma {:induction false} WaitsIsPending(log: seq<Event>, call: string)
    requires Waits(ResumeOf(log, call))
    ensures ScopeOf(log, call).pending && ScopeOf(log, call).location.Some?
  {
    var e := log[|log| - 1];
    if e.call != call || !(e.payload.ToolDeferred? && e.payload.resumeKey != "") {
      WaitsIsPending(log[..|log| - 1], call);
    }
  }

  /** A recovery tail touches a waiting call only by giving it a result. */
  lemma {:induction false} ResumeAfter(log: seq<Event>, after: seq<Event>, call: string)
    requires RecoveryTail(log, after) && call != ""
    ensures ResumeOf(after, call) == if TailHasResult(log, after, call)
                                     then ResumeOf(log, call).(pending := false, started := false) else ResumeOf(log, call)
    decreases |after|
  {
    if |after| > |log| {
      var init := TailInit(log, after);
      var e := after[|after| - 1];
      ResumeAfter(log, init, call);
      if TailHasResult(log, init, call) {
        var i :| |log| <= i < |init| && init[i].payload.ToolResult? && init[i].call == call;
        assert after[i] == init[i];
      }
      if TailHasResult(log, after, call) && !(e.payload.ToolResult? && e.call == call) {
        var i :| |log| <= i < |after| && after[i].payload.ToolResult? && after[i].call == call;
        assert init[i] == after[i];
      }
    } else {
      assert after == log;
    }
  }

  lemma {:induction false} DanglingIsMentioned(log: seq<Event>, call: string)
    requires call != "" && StateOf(log, call) != CallPending
    ensures call in MentionOrder(log)
  {
    var e := log[|log| - 1];
    if e.call != call {
      DanglingIsMentioned(log[..|log| - 1], call);
    }
  }

  lemma {:induction false} MentionsAfter(log: seq<Event>, after: seq<Event>)
    requires RecoveryTail(log, after)
    requires forall i :: |log| <= i < |after| ==> after[i].call == "" || after[i].call in MentionOrder(log)
    ensures MentionOrder(after) == MentionOrder(log)
    decreases |after|
  {
    if |after| > |log| {
      var init := TailInit(log, after);
      MentionsAfter(log, init);
    } else {
      assert after == log;
    }
  }

  lemma RecoveryNamesKnownCalls(log: seq<Event>, sid: string)
    ensures MentionOrder(Recovered(log, sid)) == MentionOrder(log)
  {
    var after := Recovered(log, sid);
    RecoveredTail(log, sid);
    forall i: nat | |log| <= i < |after| ensures after[i].call == "" || after[i].call in MentionOrder(log) {
      var b := TailOrigin(log, sid, RecoveryEvents(log, sid), i);
      BatchCall(log, sid, b);
    }
    MentionsAfter(log, after);
  }

  lemma BatchCall(log: seq<Event>, sid: string, b: Event)
    requires b in RecoveryEvents(log, sid)
    ensures b.call == "" || b.call in MentionOrder(log)
  {
    BatchMember(log, sid, b);
    if b.payload.ToolResult? {
      DanglingByState(log);
      DanglingIsMentioned(log, b.call);
    } else if b in DraftEvents(log, DraftKeys(log), sid) {
      DraftMembers(log, DraftKeys(log), sid);
    } else if b in StepEndEvents(OpenSteps(log), DeferredSteps(log), sid) {
      StepEndMembers(OpenSteps(log), DeferredSteps(log), sid);
    } else if b in ResultEvents(log, Dangling(log), sid) {
      ResultMembers(log, Dangling(log), sid);
    }
  }

  /** A waiting call that recovery settles: its barrier came after its unresolved deferral. */
  predicate LosesItsWait(log: seq<Event>, call: string) {
    Waits(ResumeOf(log, call)) && IsDangling(StateOf(log, call)) && RecoverUnknown(call) !in Ids(log)
  }

  lemma WaitAfter(log: seq<Event>, sid: string, call: string)
    requires call != ""
    ensures !LosesItsWait(log, call) && Waits(ResumeOf(log, call)) ==> ResumeOf(Recovered(log, sid), call) == ResumeOf(log, call)
    ensures LosesItsWait(log, call) || !Waits(ResumeOf(log, call)) ==> !Waits(ResumeOf(Recovered(log, sid), call))
  {
    RecoveredTail(log, sid);
    ResumeAfter(log, Recovered(log, sid), call);
    TailResultExactly(log, sid, call);
    DanglingByState(log);
  }

  lemma {:induction false} PendingSame(log: seq<Event>, after: seq<Event>, order: seq<string>)
    requires forall c :: c in order ==> Waits(ResumeOf(log, c)) == Waits(ResumeOf(after, c))
    requires forall c :: c in order && Waits(ResumeOf(log, c)) ==> ResumeOf(log, c) == ResumeOf(after, c)
    ensures PendingIn(after, order) == PendingIn(log, order)
  {
    if |order| > 0 {
      assert order[|order| - 1] in order;
      PendingSame(log, after, order[..|order| - 1]);
    }
  }

  /** Recovery leaves the list of pending resumes exactly as it was if and only if no waiting call
      was dispatched again after its deferral. */
  lemma PendingSurvivesExactly(log: seq<Event>, sid: string)
    ensures PendingResumes(Recovered(log, sid)) == PendingResumes(log)
       <==> forall q :: q in PendingResumes(log) ==> !LosesItsWait(log, q.call)
  {
    var after := Recovered(log, sid);
    var order := MentionOrder(log);
    RecoveryNamesKnownCalls(log, sid);
    MentionsNamed(log);
    if forall q :: q in PendingResumes(log) ==> !LosesItsWait(log, q.call) {
      forall c | c in order
        ensures Waits(ResumeOf(log, c)) == Waits(ResumeOf(after, c))
        ensures Waits(ResumeOf(log, c)) ==> ResumeOf(log, c) == ResumeOf(after, c)
      {
        WaitAfter(log, sid, c);
        PendingMembers(log, order, Request(c, ResumeOf(log, c).key));
      }
      PendingSame(log, after, order);
    } else {
      var q :| q in PendingResumes(log) && LosesItsWait(log, q.call);
      PendingMembers(log, order, q);
      PendingMembers(after, order, q);
      WaitAfter(log, sid, q.call);
    }
  }

  /** No call is dispatched while it waits: every barrier after a deferral is a resume. */
  ghost predicate NoDispatchWhileWaiting(log: seq<Event>) {
    forall j :: 0 <= j < |log| && (log[j].payload.ToolDispatched? || log[j].payload.ToolRunning?)
      ==> !ScopeOf(log[..j], log[j].call).pending
  }

  lemma NoDispatchPrefix(log: seq<Event>)
    requires NoDispatchWhileWaiting(log) && |log| > 0
    ensures NoDispatchWhileWaiting(log[..|log| - 1])
  {
    var before := log[..|log| - 1];
    forall j | 0 <= j < |before| && (before[j].payload.ToolDispatched? || before[j].payload.ToolRunning?)
      ensures !ScopeOf(before[..j], before[j].call).pending
    {
      assert before[..j] == log[..j] && before[j] == log[j];
    }
  }

  lemma {:induction false} WaitingNeverDangles(log: seq<Event>, call: string)
    requires NoDispatchWhileWaiting(log) && ScopeOf(log, call).pending
    ensures !IsDangling(StateOf(log, call))
  {
    var e := log[|log| - 1];
    NoDispatchPrefix(log);
    if e.call != call {
      WaitingNeverDangles(log[..|log| - 1], call);
    } else if ScopeOf(log[..|log| - 1], call).pending {
      WaitingNeverDangles(log[..|log| - 1], call);
    }
  }

  /** Under that discipline recovery settles the session without disturbing any wait: the pending
      resumes are the same, a step stays open only if it is deferred or recovery's end of it was
      used before, and doing it again changes nothing. */
  lemma RecoveryKeepsWaits(log: seq<Event>, sid: string)
    requires NoDispatchWhileWaiting(log)
    ensures PendingResumes(Recovered(log, sid)) == PendingResumes(log)
    ensures forall s :: s in OpenSteps(Recovered(log, sid)) <==>
              s in OpenSteps(log) && (s.Key() in DeferredSteps(log) || RecoverStepEnd(s.Key()) in Ids(log))
    ensures forall q :: q in PendingResumes(log) ==> LocationKey(ScopeOf(log, q.call)) in DeferredSteps(log)
    ensures Recovered(Recovered(log, sid), sid) == Recovered(log, sid)
    ensures FreshRecovery(log, sid) && TurnsOf(log).open <= 1 ==> RecoveryEvents(Recovered(log, sid), sid) == []
  {
    forall q | q in PendingResumes(log)
      ensures !LosesItsWait(log, q.call) && LocationKey(ScopeOf(log, q.call)) in DeferredSteps(log)
    {
      PendingMembers(log, MentionOrder(log), q);
      WaitsIsPending(log, q.call);
      WaitingNeverDangles(log, q.call);
      MentionIsCall(log, q.call);
    }
    PendingSurvivesExactly(log, sid);
    StepsClosedExactly(log, sid);
    forall c | c in Dangling(log) ensures !ScopeOf(log, c).pending {
      DanglingByState(log);
      if ScopeOf(log, c).pending { WaitingNeverDangles(log, c); }
    }
    WaitsSurviveWhen(log);
    RecoveryIsIdempotent(log, sid);
    if FreshRecovery(log, sid) && TurnsOf(log).open <= 1 { NothingLeftToRecover(log, sid); }
  }

  lemma {:induction false} MentionIsCall(log: seq<Event>, call: string)
    requires call in MentionOrder(log)
    ensures call in Calls(log)
  {
    if |log| > 0 {
      var before, e := log[..|log| - 1], log[|log| - 1];
      assert e in log;
      if call in MentionOrder(before) {
        MentionIsCall(before, call);
        CallsGrow(before, log, call);
      } else {
        MentionsNamed(log);
      }
    }
  }

  // ---------------------------------------------------------------- the step gate

  /** The newest key under which a call was deferred inside one step. */
  function StepKeyOf(log: seq<Event>, call: string, turn: string, step: string): string {
    if |log| == 0 then ""
    else
      var e := log[|log| - 1];
      if e.call == call && e.payload.ToolDeferred? && e.payload.resumeKey != "" && e.turn == turn && e.step == step
      then e.payload.resumeKey
      else StepKeyOf(log[..|log| - 1], call, turn, step)
  }

  /** A call of the step still waits for its result. */
  predicate Unresolved(log: seq<Event>, call: string, turn: string, step: string) {
    var key := StepKeyOf(log, call, turn, step);
    key != "" && RecordOf(log, call, key).deferred.Some? && !RecordOf(log, call, key).resultExists
  }

  predicate KeyedIn(e: Event, call: string, turn: string, step: string) {
    e.call == call && e.payload.ToolDeferred? && e.payload.resumeKey != "" && e.turn == turn && e.step == step
  }

  /** The call's newest deferral in the step is at `d`, and under the same key it was deferred at `m`,
      in whatever step, without a result since. */
  ghost predicate Blocks(log: seq<Event>, call: string, turn: string, step: string, d: nat, m: nat) {
    && call != "" && d <= m < |log| && KeyedIn(log[d], call, turn, step)
    && (forall j :: d < j < |log| ==> !KeyedIn(log[j], call, turn, step))
    && log[m].call == call && log[m].payload == log[d].payload && !ResultAfter(log, call, m)
  }

  ghost predicate Blocked(log: seq<Event>, turn: string, step: string) {
    exists call, d: nat, m: nat :: Blocks(log, call, turn, step, d, m)
  }

  ghost predicate IsLastKeyed(log: seq<Event>, call: string, turn: string, step: string, d: nat) {
    d < |log| && KeyedIn(log[d], call, turn, step) && forall j :: d < j < |log| ==> !KeyedIn(log[j], call, turn, step)
  }

  lemma {:induction false} StepKeyExactly(log: seq<Event>, call: string, turn: string, step: string) returns (d: nat)
    ensures StepKeyOf(log, call, turn, step) != "" ==>
              IsLastKeyed(log, call, turn, step, d) && log[d].payload == ToolDeferred(StepKeyOf(log, call, turn, step))
    ensures StepKeyOf(log, call, turn, step) == "" ==> forall j :: 0 <= j < |log| ==> !KeyedIn(log[j], call, turn, step)
  {
    d := 0;
    if |log| > 0 {
      var before, last := log[..|log| - 1], log[|log| - 1];
      assert forall j :: 0 <= j < |before| ==> before[j] == log[j];
      if KeyedIn(last, call, turn, step) {
        d := |log| - 1;
      } else {
        d := StepKeyExactly(before, call, turn, step);
      }
    }
  }

  lemma {:induction false} SomeLastDeferral(log: seq<Event>, call: string, key: string, at: nat) returns (d: nat)
    requires at < |log| && log[at].call == call && log[at].payload == ToolDeferred(key)
    ensures at <= d && IsLastDeferral(log, call, key, d)
    decreases |log|
  {
    var before, last := log[..|log| - 1], log[|log| - 1];
    assert forall j :: 0 <= j < |before| ==> before[j] == log[j];
    if last.call == call && last.payload == ToolDeferred(key) {
      d := |log| - 1;
    } else {
      d := SomeLastDeferral(before, call, key, at);
    }
  }

  /** A call keeps the gate shut exactly when it blocks. */
  lemma UnresolvedExactly(log: seq<Event>, call: string, turn: string, step: string)
    requires call != ""
    ensures Unresolved(log, call, turn, step) <==> exists d: nat, m: nat :: Blocks(log, call, turn, step, d, m)
  {
    var d := StepKeyExactly(log, call, turn, step);
    var key := StepKeyOf(log, call, turn, step);
    if key != "" {
      var m := SomeLastDeferral(log, call, key, d);
      RecordExactly(log, call, key, m);
      if !ResultAfter(log, call, m) { assert Blocks(log, call, turn, step, d, m); }
      forall d': nat, m': nat | Blocks(log, call, turn, step, d', m') ensures !ResultAfter(log, call, m) {
        assert d' == d;
        assert m' <= m;
      }
    }
  }

  lemma BlockerIsCall(log: seq<Event>, call: string, turn: string, step: string)
    requires exists d: nat, m: nat :: Blocks(log, call, turn, step, d, m)
    ensures call in Calls(log)
  {
    var d: nat, m: nat :| Blocks(log, call, turn, step, d, m);
    assert log[d] in log;
  }

  /** The gate of a step is shut if and only if some call was deferred in it and, counting from its
      newest deferral under that key, has no result. */
  lemma GateExactly(log: seq<Event>, turn: string, step: string)
    ensures (exists c :: c in Calls(log) && Unresolved(log, c, turn, step)) <==> Blocked(log, turn, step)
  {
    forall c | c in Calls(log) && Unresolved(log, c, turn, step) ensures Blocked(log, turn, step) {
      UnresolvedExactly(log, c, turn, step);
      var d: nat, m: nat :| Blocks(log, c, turn, step, d, m);
    }
    if Blocked(log, turn, step) {
      var c, d: nat, m: nat :| Blocks(log, c, turn, step, d, m);
      UnresolvedExactly(log, c, turn, step);
      BlockerIsCall(log, c, turn, step);
    }
  }

  /** The gate opens once every call deferred in the step has a result after its last deferral. */
  lemma ResultsOpenTheGate(log: seq<Event>, turn: string, step: string)
    requires forall c, d: nat, m: nat ::
               (c != "" && d < |log| && m < |log| && KeyedIn(log[d], c, turn, step) && log[m].call == c && log[m].payload.ToolDeferred?)
               ==> ResultAfter(log, c, m)
    ensures !Blocked(log, turn, step)
  {
    forall c, d: nat, m: nat ensures !Blocks(log, c, turn, step, d, m) {}
  }

  method HasUnresolvedInStep(log: seq<Event>, turn: string, step: string) returns (unresolved: bool)
    ensures unresolved <==> exists c :: c in Calls(log) && Unresolved(log, c, turn, step)
    ensures unresolved <==> Blocked(log, turn, step)
  {
    GateExactly(log, turn, step);
    var requests: map<string, string> := map[];
    for i := 0 to |log|
      invariant requests.Keys <= Calls(log)
      invariant forall c :: c != "" ==> StepKeyOf(log[..i], c, turn, step) == (if c in requests then requests[c] else "")
    {
      Snoc(log, i);
      var e := log[i];
      assert e in log;
      if e.payload.ToolDeferred? && e.turn == turn && e.step == step && e.call != "" && e.payload.resumeKey != "" {
        requests := requests[e.call := e.payload.resumeKey];
      }
    }
    assert log[..|log|] == log;
    var todo := requests.Keys;
    while todo != {}
      invariant todo <= requests.Keys
      invariant forall c :: c in requests && c !in todo ==> !Unresolved(log, c, turn, step)
      decreases |todo|
    {
      var c :| c in todo;
      var r := DeferredToolRecord(log, c, requests[c]);
      if requests[c] != "" && r.deferred.Some? && !r.resultExists {
        return true;
      }
      todo := todo - {c};
    }
    return false;
  }

  /** Every deferral carries a resume key; the writer refuses one without. */
  ghost predicate Keyed(log: seq<Event>) { forall e :: e in log && e.payload.ToolDeferred? ==> e.payload.resumeKey != "" }

  lemma {:induction false} LatestInStep(log: seq<Event>, call: string)
    requires Keyed(log) && Waits(ResumeOf(log, call))
    ensures ScopeOf(log, call).location.Some?
    ensures var at := ScopeOf(log, call).location.value;
            at in log && StepKeyOf(log, call, at.turn, at.step) == LatestKey(log, call)
  {
    var e := log[|log| - 1];
    assert e in log;
    if e.call != call || !e.payload.ToolDeferred? {
      LatestInStep(log[..|log| - 1], call);
    }
  }

  /** A waiting call keeps the gate of its own step shut. */
  lemma WaitBlocksItsStep(log: seq<Event>, q: Request)
    requires Keyed(log) && q in PendingResumes(log)
    ensures var at := LocationKey(ScopeOf(log, q.call));
            Unresolved(log, q.call, at.turn, at.step) && q.call in Calls(log)
  {
    PendingMembers(log, MentionOrder(log), q);
    FoldsAgree(log, q.call, q.key);
    LatestInStep(log, q.call);
    MentionIsCall(log, q.call);
  }

  // ---------------------------------------------------------------- the order of the pending list

  /** `a` is mentioned before `b` ever is. */
  ghost predicate MentionedBefore(log: seq<Event>, a: string, b: string) {
    exists p :: 0 <= p < |log| && log[p].call == a && forall q :: 0 <= q <= p ==> log[q].call != b
  }

  lemma MentionStays(log: seq<Event>, a: string, b: string)
    requires |log| > 0 && MentionedBefore(log[..|log| - 1], a, b)
    ensures MentionedBefore(log, a, b)
  {
    var before := log[..|log| - 1];
    var p :| 0 <= p < |before| && before[p].call == a && forall q :: 0 <= q <= p ==> before[q].call != b;
    assert log[p].call == a;
    forall q | 0 <= q <= p ensures log[q].call != b { assert before[q] == log[q]; }
  }

  lemma {:induction false} NotMentioned(log: seq<Event>, call: string)
    requires call != "" && call !in MentionOrder(log)
    ensures forall q :: 0 <= q < |log| ==> log[q].call != call
  {
    forall q | 0 <= q < |log| ensures log[q].call != call {
      if log[q].call == call { Mentioned(log, q); }
    }
  }

  lemma {:induction false} MentionOrderIsFirst(log: seq<Event>, i: nat, j: nat)
    requires i < j < |MentionOrder(log)|
    ensures MentionedBefore(log, MentionOrder(log)[i], MentionOrder(log)[j])
  {
    var before, order := log[..|log| - 1], MentionOrder(log);
    if j < |MentionOrder(before)| {
      MentionOrderIsFirst(before, i, j);
      MentionStays(log, order[i], order[j]);
    } else {
      MentionsNamed(log);
      assert order[j] in order;
      NotMentioned(before, order[j]);
      var p := MentionPlace(before, order[i]);
      assert log[p] == before[p];
      forall q | 0 <= q <= p ensures log[q].call != order[j] { assert log[q] == before[q]; }
    }
  }

  lemma {:induction false} MentionPlace(log: seq<Event>, call: string) returns (p: nat)
    requires call in MentionOrder(log)
    ensures p < |log| && log[p].call == call
  {
    var before := log[..|log| - 1];
    if call in MentionOrder(before) {
      p := MentionPlace(before, call);
      assert log[p] == before[p];
    } else {
      p := |log| - 1;
    }
  }

  /** The list of pending calls stands in the order in which the log first mentions them. */
  lemma PendingInMentionOrder(log: seq<Event>, i: nat, j: nat)
    requires i < j < |PendingResumes(log)|
    ensures MentionedBefore(log, PendingResumes(log)[i].call, PendingResumes(log)[j].call)
  {
    var k, l := PendingPlaces(log, MentionOrder(log), i, j);
    MentionOrderIsFirst(log, k, l);
  }

  lemma {:induction false} PendingPlaces(log: seq<Event>, order: seq<string>, i: nat, j: nat) returns (k: nat, l: nat)
    requires i < j < |PendingIn(log, order)|
    ensures k < l < |order| && PendingIn(log, order)[i].call == order[k] && PendingIn(log, order)[j].call == order[l]
    decreases |order|
  {
    var init := order[..|order| - 1];
    if j < |PendingIn(log, init)| {
      k, l := PendingPlaces(log, init, i, j);
    } else {
      k := PendingPlace(log, init, i);
      l := |order| - 1;
    }
  }

  lemma {:induction false} PendingPlace(log: seq<Event>, order: seq<string>, i: nat) returns (k: nat)
    requires i < |PendingIn(log, order)|
    ensures k < |order| && PendingIn(log, order)[i].call == order[k]
    decreases |order|
  {
    var init := order[..|order| - 1];
    if i < |PendingIn(log, init)| {
      k := PendingPlace(log, init, i);
    } else {
      k := |order| - 1;
    }
  }
}
