/** The guards of a resume, said by positions of the log they read (agent/loop.go:542-732). */
module LifecycleGuards {
  import opened Events
  import opened Deferral
  import opened Lifecycle

  /** The call's newest deferral under the key is at `d`, nothing settled it since, and the newest
      start of a resume after it, at `j`, announced a stored result. */
  ghost predicate StoredResult(log: seq<Event>, call: string, key: string, d: nat, j: nat) {
    && IsLastDeferral(log, call, key, d) && !ResultAfter(log, call, d)
    && d < j < |log| && log[j].call == call && log[j].payload == ToolResumeStarted(true)
    && forall k :: j < k < |log| && log[k].call == call ==> !log[k].payload.ToolResumeStarted?
  }

  lemma {:induction false} NewestDeferral(log: seq<Event>, call: string, key: string) returns (d: nat)
    requires Deferred(log, call, key)
    ensures IsLastDeferral(log, call, key, d)
  {
    var before, last := log[..|log| - 1], log[|log| - 1];
    if last.call == call && last.payload == ToolDeferred(key) {
      d := |log| - 1;
    } else {
      var i :| 0 <= i < |log| && log[i].call == call && log[i].payload == ToolDeferred(key);
      assert before[i] == log[i];
      d := NewestDeferral(before, call, key);
      LastDeferralSnoc(log, call, key, d);
    }
  }

  /** A resume is admitted exactly for a call that was deferred under the key and neither resumed nor
      settled since; it writes in the run of the newest such deferral, numbered from the length of the
      log it read. */
  lemma ResumeGuardExactly(log: seq<Event>, call: string, key: string)
    ensures ResumeGuard(log, call, key) <==> call != "" && key != "" && exists i: nat :: Untouched(log, call, key, i)
    ensures ResumeGuard(log, call, key) ==>
              exists d: nat :: IsLastDeferral(log, call, key, d) && ResumeEmitter(log, call, key) == Emitter(log[d].run, |log|)
  {
    ResumableExactly(log, call, key);
    if ResumeGuard(log, call, key) {
      RecordExactly(log, call, key, 0);
      var d := NewestDeferral(log, call, key);
      RecordExactly(log, call, key, d);
    }
  }

  lemma StoredIsAnnounced(log: seq<Event>, call: string, key: string, d: nat, j: nat)
    requires StoredResult(log, call, key, d, j)
    ensures RedeliverGuard(log, call, key) <==> call != "" && key != ""
  {
    RecordExactly(log, call, key, d);
    MaterializedExactly(log, call, key);
    assert log[..j][d] == log[d];
    assert IsLastStart(log, call, key, j);
  }

  /** A stored result is delivered again exactly when it was announced after the newest deferral and
      is not settled. */
  lemma RedeliverGuardExactly(log: seq<Event>, call: string, key: string)
    ensures RedeliverGuard(log, call, key) <==> call != "" && key != "" && exists d: nat, j: nat :: StoredResult(log, call, key, d, j)
  {
    if RedeliverGuard(log, call, key) {
      RecordExactly(log, call, key, 0);
      var d := NewestDeferral(log, call, key);
      RecordExactly(log, call, key, d);
      MaterializedExactly(log, call, key);
      var j: nat :| IsLastStart(log, call, key, j) && log[j].payload.materialized;
      var k :| d < k < |log| && log[k].call == call && log[k].payload.ToolResumeStarted?;
      assert StoredResult(log, call, key, d, j);
    }
    if call != "" && key != "" && exists d: nat, j: nat :: StoredResult(log, call, key, d, j) {
      var d: nat, j: nat :| StoredResult(log, call, key, d, j);
      StoredIsAnnounced(log, call, key, d, j);
    }
  }

  /** A fresh execution was started after the newest deferral and nothing is known of it. */
  ghost predicate StartedAfresh(log: seq<Event>, call: string, key: string, d: nat, j: nat) {
    && IsLastDeferral(log, call, key, d) && !ResultAfter(log, call, d)
    && d < j < |log| && log[j].call == call && log[j].payload == ToolResumeStarted(false)
    && forall k :: j < k < |log| && log[k].call == call ==> !log[k].payload.ToolResumeStarted?
  }

  /** Of a call deferred under a key and not settled since, exactly one holds: it may be resumed, its
      stored result may be delivered again, or a fresh execution was started and no guard lets it
      through. */
  lemma GuardsDecide(log: seq<Event>, call: string, key: string, d: nat)
    requires call != "" && key != "" && IsLastDeferral(log, call, key, d) && !ResultAfter(log, call, d)
    ensures !(ResumeGuard(log, call, key) && RedeliverGuard(log, call, key))
    ensures !ResumeGuard(log, call, key) && !RedeliverGuard(log, call, key) <==> exists j: nat :: StartedAfresh(log, call, key, d, j)
  {
    RecordExactly(log, call, key, d);
    RedeliverGuardExactly(log, call, key);
    if StartAfter(log, call, d) {
      var k :| d < k < |log| && log[k].call == call && log[k].payload.ToolResumeStarted?;
      var j := NewestStart(log, call, k);
      if log[j].payload.materialized {
        assert StoredResult(log, call, key, d, j);
      } else {
        assert StartedAfresh(log, call, key, d, j);
      }
    }
    forall j: nat | StartedAfresh(log, call, key, d, j) ensures !ResumeGuard(log, call, key) && !RedeliverGuard(log, call, key) {
      assert StartAfter(log, call, d);
      NotStored(log, call, key, d, j);
    }
  }

  lemma NotStored(log: seq<Event>, call: string, key: string, d: nat, j: nat)
    requires StartedAfresh(log, call, key, d, j)
    ensures forall c: nat, i: nat :: !StoredResult(log, call, key, c, i)
  {
    forall c: nat, i: nat | StoredResult(log, call, key, c, i) ensures i == j {}
  }

  lemma {:induction false} NewestStart(log: seq<Event>, call: string, k: nat) returns (j: nat)
    requires k < |log| && log[k].call == call && log[k].payload.ToolResumeStarted?
    ensures k <= j < |log| && log[j].call == call && log[j].payload.ToolResumeStarted?
    ensures forall i :: j < i < |log| && log[i].call == call ==> !log[i].payload.ToolResumeStarted?
    decreases |log| - k
  {
    if i :| k < i < |log| && log[i].call == call && log[i].payload.ToolResumeStarted? {
      j := NewestStart(log, call, i);
    } else {
      j := k;
    }
  }
}
