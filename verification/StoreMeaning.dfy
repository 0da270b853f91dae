/** What the appends store and what they refuse, position by position (session/store.go:68-150,
    session/fenced.go:153-251). */
module StoreMeaning {
  import opened Events
  import opened Store

  // ---------------------------------------------------------------- refusals

  /** A tool or approval event that names no call. */
  predicate Callless(e: Event) {
    e.call == ""
    && (e.payload.ToolCall? || e.payload.ToolAdmitted? || e.payload.ToolDispatched? || e.payload.ToolRunning?
        || e.payload.ToolDeferred? || e.payload.ToolResumeStarted? || e.payload.ToolResult? || e.payload.ApprovalRequested?
        || e.payload.ApprovalResolved?)
  }

  predicate Foreign(e: Event, sid: string) { e.session != "" && e.session != sid }

  ghost predicate FirstBad(batch: seq<Event>, sid: string, i: nat) {
    i < |batch| && (Callless(batch[i]) || Foreign(batch[i], sid)) && forall j :: 0 <= j < i ==> !Callless(batch[j]) && !Foreign(batch[j], sid)
  }

  ghost predicate AllGood(batch: seq<Event>, sid: string) { forall e :: e in batch ==> !Callless(e) && !Foreign(e, sid) }

  lemma BadHead(sid: string, batch: seq<Event>)
    requires |batch| > 0
    ensures BatchError(sid, batch) == if Callless(batch[0]) then Some(InvalidEvent)
                                      else if Foreign(batch[0], sid) then Some(WrongSession)
                                      else BatchError(sid, batch[1..])
  {
  }

  lemma GoodHead(batch: seq<Event>, sid: string)
    requires |batch| > 0
    ensures AllGood(batch, sid) <==> !Callless(batch[0]) && !Foreign(batch[0], sid) && AllGood(batch[1..], sid)
  {
    assert batch == [batch[0]] + batch[1..];
    assert forall e :: e in batch <==> e == batch[0] || e in batch[1..];
  }

  lemma BadLater(batch: seq<Event>, sid: string, i: nat)
    requires |batch| > 0 && i > 0 && FirstBad(batch, sid, i)
    ensures !Callless(batch[0]) && !Foreign(batch[0], sid) && FirstBad(batch[1..], sid, i - 1)
  {
    forall j | 0 <= j < i - 1 ensures !Callless(batch[1..][j]) && !Foreign(batch[1..][j], sid) {
      assert batch[1..][j] == batch[j + 1];
    }
  }

  /** A batch is refused if and only if some event names no call or another session, and the first
      such event decides the error. */
  lemma {:induction false} RefusedExactly(sid: string, batch: seq<Event>)
    ensures BatchError(sid, batch).None? <==> AllGood(batch, sid)
    ensures forall i: nat :: FirstBad(batch, sid, i) ==> BatchError(sid, batch) == Some(if Callless(batch[i]) then InvalidEvent else WrongSession)
  {
    if |batch| > 0 {
      RefusedExactly(sid, batch[1..]);
      GoodHead(batch, sid);
      BadHead(sid, batch);
      forall i: nat | FirstBad(batch, sid, i) && i > 0
        ensures BatchError(sid, batch) == Some(if Callless(batch[i]) then InvalidEvent else WrongSession)
      {
        BadLater(batch, sid, i);
      }
    }
  }

  // ---------------------------------------------------------------- what is stored

  /** A batch event as it stands in the log: only session and sequence are the store's. */
  function Placed(e: Event, sid: string, at: nat): Event { e.(session := sid, seqNo := at + 1) }

  /** A plain append stores every event of the batch, in order. */
  lemma {:induction false} AppendedExactly(log: seq<Event>, sid: string, batch: seq<Event>)
    ensures var after := Appended(log, sid, batch);
            && |after| == |log| + |batch| && after[..|log|] == log
            && forall i :: 0 <= i < |batch| ==> after[|log| + i] == Placed(batch[i], sid, |log| + i)
  {
    if |batch| > 0 {
      AppendedExactly(log, sid, batch[..|batch| - 1]);
    }
  }

  predicate OnLog(log: seq<Event>, id: EventId) { exists x :: x in log && x.id == id }

  predicate Unknown(log: seq<Event>, e: Event) { e.id == NoId || !OnLog(log, e.id) }

  /** How many of the first `n` events of a batch the log does not know. */
  function UnknownBefore(log: seq<Event>, batch: seq<Event>, n: nat): nat
    requires n <= |batch|
  {
    if n == 0 then 0 else UnknownBefore(log, batch, n - 1) + (if Unknown(log, batch[n - 1]) then 1 else 0)
  }

  lemma {:induction false} UnknownPrefix(log: seq<Event>, batch: seq<Event>, more: seq<Event>, n: nat)
    requires n <= |batch| && batch <= more
    ensures UnknownBefore(log, more, n) == UnknownBefore(log, batch, n)
  {
    if n > 0 { UnknownPrefix(log, batch, more, n - 1); }
  }

  lemma {:induction false} UnknownMonotone(log: seq<Event>, batch: seq<Event>, i: nat, n: nat)
    requires i < n <= |batch| && Unknown(log, batch[i])
    ensures UnknownBefore(log, batch, i) < UnknownBefore(log, batch, n)
    decreases n
  {
    if i < n - 1 { UnknownMonotone(log, batch, i, n - 1); }
  }

  lemma UnknownIsNew(log: seq<Event>, e: Event)
    ensures IsNew(log, e) <==> Unknown(log, e)
  {
  }

  ghost predicate StoresUnknown(log: seq<Event>, sid: string, batch: seq<Event>, after: seq<Event>) {
    && |after| == |log| + UnknownBefore(log, batch, |batch|) && after[..|log|] == log
    && forall i :: 0 <= i < |batch| && Unknown(log, batch[i]) ==> StoredAt(log, sid, batch, after, i)
  }

  ghost predicate StoredAt(log: seq<Event>, sid: string, batch: seq<Event>, after: seq<Event>, i: nat)
    requires i < |batch|
  {
    var at := |log| + UnknownBefore(log, batch, i);
    at < |after| && after[at] == Placed(batch[i], sid, at)
  }

  /** A fenced append stores the events whose id the log does not hold, in batch order, and nothing
      else. */
  lemma {:induction false} AppendedNewExactly(log: seq<Event>, sid: string, batch: seq<Event>)
    ensures StoresUnknown(log, sid, batch, AppendedNew(log, sid, batch))
  {
    if |batch| > 0 {
      var init, last := batch[..|batch| - 1], batch[|batch| - 1];
      AppendedNewExactly(log, sid, init);
      UnknownIsNew(log, last);
      UnknownPrefix(log, init, batch, |init|);
      forall i | 0 <= i < |batch| && Unknown(log, batch[i]) ensures StoredAt(log, sid, batch, AppendedNew(log, sid, batch), i) {
        if i < |init| {
          UnknownPrefix(log, init, batch, i);
          assert StoredAt(log, sid, init, AppendedNew(log, sid, init), i);
        }
      }
    }
  }

  // ---------------------------------------------------------------- the committed append

  function NamedAs(batch: seq<Event>, tokens: seq<EventId>, i: nat): EventId
    requires |tokens| == |batch| && i < |batch|
  {
    if batch[i].id == NoId then tokens[i] else batch[i].id
  }

  /** The first mention of an id the log does not hold. */
  ghost predicate FirstNamed(log: seq<Event>, batch: seq<Event>, tokens: seq<EventId>, i: nat)
    requires |tokens| == |batch| && i < |batch|
  {
    !OnLog(log, NamedAs(batch, tokens, i)) && forall j :: 0 <= j < i ==> NamedAs(batch, tokens, j) != NamedAs(batch, tokens, i)
  }

  ghost function FirstBefore(log: seq<Event>, batch: seq<Event>, tokens: seq<EventId>, n: nat): nat
    requires |tokens| == |batch| && n <= |batch|
  {
    if n == 0 then 0 else FirstBefore(log, batch, tokens, n - 1) + (if FirstNamed(log, batch, tokens, n - 1) then 1 else 0)
  }

  lemma {:induction false} FirstPrefix(log: seq<Event>, batch: seq<Event>, tokens: seq<EventId>, n: nat)
    requires |tokens| == |batch| > 0 && n < |batch|
    ensures FirstBefore(log, batch, tokens, n) == FirstBefore(log, batch[..|batch| - 1], tokens[..|batch| - 1], n)
  {
    if n > 0 {
      FirstPrefix(log, batch, tokens, n - 1);
      NamedPrefix(log, batch, tokens, n - 1);
    }
  }

  lemma NamedPrefix(log: seq<Event>, batch: seq<Event>, tokens: seq<EventId>, i: nat)
    requires |tokens| == |batch| > 0 && i < |batch| - 1
    ensures NamedAs(batch, tokens, i) == NamedAs(batch[..|batch| - 1], tokens[..|batch| - 1], i)
    ensures FirstNamed(log, batch, tokens, i) <==> FirstNamed(log, batch[..|batch| - 1], tokens[..|batch| - 1], i)
  {
    var init, ids := batch[..|batch| - 1], tokens[..|batch| - 1];
    assert forall j :: 0 <= j < |init| ==> NamedAs(batch, tokens, j) == NamedAs(init, ids, j);
  }

  lemma {:induction false} FindOnLog(log: seq<Event>, id: EventId)
    ensures Find(log, id).Some? <==> OnLog(log, id)
    ensures Find(log, id).Some? ==> Find(log, id).value in log && Find(log, id).value.id == id
  {
    if |log| > 0 {
      FindOnLog(log[..|log| - 1], id);
      assert log == log[..|log| - 1] + [log[|log| - 1]];
    }
  }

  lemma CommitStep(log: seq<Event>, sid: string, batch: seq<Event>, tokens: seq<EventId>)
    requires |tokens| == |batch| > 0
    ensures var n := |batch| - 1;
            var before, c, id := Committed(log, sid, batch[..n], tokens[..n]), Committed(log, sid, batch, tokens), NamedAs(batch, tokens, n);
            if OnLog(before.log, id)
            then c.log == before.log && exists x :: x in before.log && x.id == id && c.committed == before.committed + [x]
            else var stored := Placed(batch[n].(id := id), sid, |before.log|);
                 c == Commit(before.log + [stored], before.committed + [stored])
  {
    FindOnLog(Committed(log, sid, batch[..|batch| - 1], tokens[..|batch| - 1]).log, NamedAs(batch, tokens, |batch| - 1));
  }

  // What the log holds afterwards.

  ghost predicate Named(batch: seq<Event>, tokens: seq<EventId>, id: EventId)
    requires |tokens| == |batch|
  {
    exists j :: 0 <= j < |batch| && NamedAs(batch, tokens, j) == id
  }

  lemma NamedSnoc(batch: seq<Event>, tokens: seq<EventId>, id: EventId)
    requires |tokens| == |batch| > 0
    ensures Named(batch, tokens, id)
       <==> Named(batch[..|batch| - 1], tokens[..|batch| - 1], id) || NamedAs(batch, tokens, |batch| - 1) == id
  {
    var init, ids := batch[..|batch| - 1], tokens[..|batch| - 1];
    forall j | 0 <= j < |init| ensures NamedAs(batch, tokens, j) == NamedAs(init, ids, j) {}
  }

  lemma OnLogSnoc(log: seq<Event>, e: Event, id: EventId)
    ensures OnLog(log + [e], id) <==> OnLog(log, id) || e.id == id
  {
    assert forall x :: x in log + [e] <==> x in log || x == e;
  }

  /** The ids of the log and of the batch, and nothing is stored under an id the log held. */
  lemma {:induction false} CommittedIds(log: seq<Event>, sid: string, batch: seq<Event>, tokens: seq<EventId>, id: EventId)
    requires |tokens| == |batch|
    ensures var c := Committed(log, sid, batch, tokens);
            && log <= c.log && |c.committed| == |batch|
            && (OnLog(c.log, id) <==> OnLog(log, id) || Named(batch, tokens, id))
            && forall k :: |log| <= k < |c.log| ==> !OnLog(log, c.log[k].id)
  {
    if |batch| > 0 {
      var n := |batch| - 1;
      var before := Committed(log, sid, batch[..n], tokens[..n]);
      var last := NamedAs(batch, tokens, n);
      CommittedIds(log, sid, batch[..n], tokens[..n], id);
      CommittedIds(log, sid, batch[..n], tokens[..n], last);
      CommitStep(log, sid, batch, tokens);
      NamedSnoc(batch, tokens, id);
      if !OnLog(before.log, last) { OnLogSnoc(before.log, Placed(batch[n].(id := last), sid, |before.log|), id); }
    }
  }

  /** A position is stored exactly when its id is met for the first time. */
  lemma FirstIsStored(log: seq<Event>, sid: string, batch: seq<Event>, tokens: seq<EventId>)
    requires |tokens| == |batch| > 0
    ensures var n := |batch| - 1;
            FirstNamed(log, batch, tokens, n) <==> !OnLog(Committed(log, sid, batch[..n], tokens[..n]).log, NamedAs(batch, tokens, n))
  {
    var n := |batch| - 1;
    CommittedIds(log, sid, batch[..n], tokens[..n], NamedAs(batch, tokens, n));
    forall j | 0 <= j < n ensures NamedAs(batch, tokens, j) == NamedAs(batch[..n], tokens[..n], j) {}
  }

  lemma {:induction false} CommittedLength(log: seq<Event>, sid: string, batch: seq<Event>, tokens: seq<EventId>)
    requires |tokens| == |batch|
    ensures |Committed(log, sid, batch, tokens).log| == |log| + FirstBefore(log, batch, tokens, |batch|)
  {
    if |batch| > 0 {
      var n := |batch| - 1;
      CommittedLength(log, sid, batch[..n], tokens[..n]);
      FirstPrefix(log, batch, tokens, n);
      FirstIsStored(log, sid, batch, tokens);
      CommitStep(log, sid, batch, tokens);
    }
  }

  /** What the committed append answers for position `i`, and where it stored it. */
  ghost predicate Answered(log: seq<Event>, sid: string, batch: seq<Event>, tokens: seq<EventId>, c: Commit, i: nat)
    requires |tokens| == |batch| && i < |batch| && |c.committed| == |batch|
  {
    var at := |log| + FirstBefore(log, batch, tokens, i);
    if FirstNamed(log, batch, tokens, i)
    then at < |c.log| && c.log[at] == c.committed[i] == Placed(batch[i].(id := NamedAs(batch, tokens, i)), sid, at)
    else c.committed[i] in c.log && c.committed[i].id == NamedAs(batch, tokens, i)
         && (OnLog(log, NamedAs(batch, tokens, i)) ==> c.committed[i] in log)
  }

  lemma EarlierAnswer(log: seq<Event>, sid: string, batch: seq<Event>, tokens: seq<EventId>, before: Commit, c: Commit, i: nat)
    requires |tokens| == |batch| > 0 && i < |batch| - 1 && |before.committed| == |batch| - 1 && |c.committed| == |batch|
    requires Answered(log, sid, batch[..|batch| - 1], tokens[..|batch| - 1], before, i)
    requires before.log <= c.log && c.committed[i] == before.committed[i]
    ensures Answered(log, sid, batch, tokens, c, i)
  {
    NamedPrefix(log, batch, tokens, i);
    FirstPrefix(log, batch, tokens, i);
  }

  lemma LastAnswer(log: seq<Event>, sid: string, batch: seq<Event>, tokens: seq<EventId>)
    requires |tokens| == |batch| > 0
    ensures |Committed(log, sid, batch, tokens).committed| == |batch|
    ensures Answered(log, sid, batch, tokens, Committed(log, sid, batch, tokens), |batch| - 1)
  {
    var n := |batch| - 1;
    var before, c, id := Committed(log, sid, batch[..n], tokens[..n]), Committed(log, sid, batch, tokens), NamedAs(batch, tokens, n);
    CommittedIds(log, sid, batch[..n], tokens[..n], id);
    CommittedLength(log, sid, batch[..n], tokens[..n]);
    FirstPrefix(log, batch, tokens, n);
    FirstIsStored(log, sid, batch, tokens);
    CommitStep(log, sid, batch, tokens);
    if OnLog(before.log, id) {
      var x :| x in before.log && x.id == id && c.committed == before.committed + [x];
      var k :| 0 <= k < |before.log| && before.log[k] == x;
      assert k < |log| ==> log[k] == x;
    }
  }

  /** The committed append stores the first event of every id that is new, in batch order, and answers
      each position with the event the log has under its id. */
  lemma {:induction false} CommittedExactly(log: seq<Event>, sid: string, batch: seq<Event>, tokens: seq<EventId>)
    requires |tokens| == |batch|
    ensures var c := Committed(log, sid, batch, tokens);
            && |c.committed| == |batch| && |c.log| == |log| + FirstBefore(log, batch, tokens, |batch|) && log <= c.log
            && forall i :: 0 <= i < |batch| ==> Answered(log, sid, batch, tokens, c, i)
  {
    var c := Committed(log, sid, batch, tokens);
    CommittedIds(log, sid, batch, tokens, NoId);
    CommittedLength(log, sid, batch, tokens);
    if |batch| > 0 {
      var n := |batch| - 1;
      var before := Committed(log, sid, batch[..n], tokens[..n]);
      CommittedExactly(log, sid, batch[..n], tokens[..n]);
      CommitStep(log, sid, batch, tokens);
      LastAnswer(log, sid, batch, tokens);
      forall i | 0 <= i < n ensures Answered(log, sid, batch, tokens, c, i) {
        EarlierAnswer(log, sid, batch, tokens, before, c, i);
      }
    }
  }

  /** The event is the last one of the log under its id. */
  ghost predicate NewestOf(log: seq<Event>, x: Event) { exists k: nat :: NewestAt(log, x, k) }

  ghost predicate NewestAt(log: seq<Event>, x: Event, k: nat) {
    k < |log| && log[k] == x && forall j :: k < j < |log| ==> log[j].id != x.id
  }

  lemma NewestStays(log: seq<Event>, e: Event, x: Event)
    requires NewestOf(log, x) && e.id != x.id
    ensures NewestOf(log + [e], x)
  {
    var k: nat :| NewestAt(log, x, k);
    forall j | k < j < |log + [e]| ensures (log + [e])[j].id != x.id {
      if j < |log| { assert log[j].id != x.id; }
    }
    assert NewestAt(log + [e], x, k);
  }

  lemma NewestLast(log: seq<Event>, e: Event)
    ensures NewestOf(log + [e], e)
  {
    assert NewestAt(log + [e], e, |log|);
  }

  lemma {:induction false} FindsNewest(log: seq<Event>, id: EventId)
    ensures Find(log, id).Some? ==> Find(log, id).value.id == id && NewestOf(log, Find(log, id).value)
    ensures Find(log, id).None? ==> forall x :: x in log ==> x.id != id
  {
    if |log| > 0 {
      var before, last := log[..|log| - 1], log[|log| - 1];
      assert log == before + [last];
      FindsNewest(before, id);
      if last.id == id {
        NewestLast(before, last);
      } else if Find(before, id).Some? {
        NewestStays(before, last, Find(before, id).value);
      }
    }
  }

  lemma NewestOnLog(log: seq<Event>, x: Event)
    requires NewestOf(log, x)
    ensures x in log
  {
    var k: nat :| NewestAt(log, x, k);
  }

  ghost predicate AllNewest(log: seq<Event>, answers: seq<Event>) {
    forall i :: 0 <= i < |answers| ==> NewestOf(log, answers[i])
  }

  lemma AllStayNewest(log: seq<Event>, e: Event, answers: seq<Event>)
    requires AllNewest(log, answers) && forall x :: x in log ==> x.id != e.id
    ensures AllNewest(log + [e], answers + [e])
  {
    NewestLast(log, e);
    forall i | 0 <= i < |answers| ensures NewestOf(log + [e], answers[i]) {
      assert NewestOf(log, answers[i]);
      NewestOnLog(log, answers[i]);
      NewestStays(log, e, answers[i]);
    }
  }

  /** Every answer of a committed append is the newest event of the log under its id. */
  lemma {:induction false} AnswersAreNewest(log: seq<Event>, sid: string, batch: seq<Event>, tokens: seq<EventId>)
    requires |tokens| == |batch|
    ensures AllNewest(Committed(log, sid, batch, tokens).log, Committed(log, sid, batch, tokens).committed)
  {
    if |batch| > 0 {
      var n := |batch| - 1;
      var before, e := Committed(log, sid, batch[..n], tokens[..n]), WithId(batch[n], tokens[n]);
      AnswersAreNewest(log, sid, batch[..n], tokens[..n]);
      FindsNewest(before.log, e.id);
      if Find(before.log, e.id).None? {
        AllStayNewest(before.log, Stored(e, sid, |before.log| + 1), before.committed);
      }
    }
  }

  // ---------------------------------------------------------------- the operations

  /** `Append`: refused exactly for a bad event, and then nothing changes; otherwise the whole batch is
      stored and the answer is the new length. */
  lemma AppendMeans(st: State, sid: string, batch: seq<Event>)
    ensures var (after, r) := AppendPlain(st, sid, batch);
            && (r.Ok? <==> AllGood(batch, sid)) && (r.Err? ==> after == st)
            && (forall i: nat :: FirstBad(batch, sid, i) ==> r.Err? && r.error == if Callless(batch[i]) then InvalidEvent else WrongSession)
            && (r.Ok? ==> st.Log(sid) <= after.Log(sid) && r.value == |after.Log(sid)| == |st.Log(sid)| + |batch|
                          && forall i :: 0 <= i < |batch| ==> after.Log(sid)[|st.Log(sid)| + i] == Placed(batch[i], sid, |st.Log(sid)| + i))
            && forall other :: other != sid ==> after.Log(other) == st.Log(other)
  {
    RefusedExactly(sid, batch);
    AppendedExactly(st.Log(sid), sid, batch);
  }

  /** `AppendFenced`: a bad event is reported before a lost lease; otherwise the unknown events are
      stored. */
  lemma AppendFencedMeans(st: State, lease: Lease, batch: seq<Event>, now: nat)
    ensures var (after, r) := FencedAppend(st, lease, batch, now);
            var sid := lease.session;
            && (r.Ok? <==> AllGood(batch, sid) && Holds(st, lease, now)) && (r.Err? ==> after == st)
            && (r.Err? && AllGood(batch, sid) ==> r.error == LeaseLost)
            && (forall i: nat :: FirstBad(batch, sid, i) ==> r.Err? && r.error == if Callless(batch[i]) then InvalidEvent else WrongSession)
            && (r.Ok? ==> r.value == |after.Log(sid)| && StoresUnknown(st.Log(sid), sid, batch, after.Log(sid)))
            && forall other :: other != sid ==> after.Log(other) == st.Log(other)
  {
    RefusedExactly(lease.session, batch);
    AppendedNewExactly(st.Log(lease.session), lease.session, batch);
  }

  /** `AppendFencedCommitted`: the same refusals; the answer has the stored event of every position. */
  lemma AppendFencedCommittedMeans(st: State, lease: Lease, batch: seq<Event>, tokens: seq<EventId>, now: nat)
    requires |tokens| == |batch|
    ensures var (after, r) := FencedCommitted(st, lease, batch, tokens, now);
            var sid := lease.session;
            && (r.Ok? <==> AllGood(batch, sid) && Holds(st, lease, now)) && (r.Err? ==> after == st)
            && (r.Err? && AllGood(batch, sid) ==> r.error == LeaseLost)
            && (forall i: nat :: FirstBad(batch, sid, i) ==> r.Err? && r.error == if Callless(batch[i]) then InvalidEvent else WrongSession)
            && (r.Ok? ==> st.Log(sid) <= after.Log(sid)
                          && |after.Log(sid)| == |st.Log(sid)| + FirstBefore(st.Log(sid), batch, tokens, |batch|))
            && (r.Ok? ==> |r.value| == |batch| && forall i :: 0 <= i < |batch| ==>
                            Answered(st.Log(sid), sid, batch, tokens, Commit(after.Log(sid), r.value), i))
            && (r.Ok? ==> AllNewest(after.Log(sid), r.value))
            && forall other :: other != sid ==> after.Log(other) == st.Log(other)
  {
    RefusedExactly(lease.session, batch);
    CommittedExactly(st.Log(lease.session), lease.session, batch, tokens);
    AnswersAreNewest(st.Log(lease.session), lease.session, batch, tokens);
  }

  /** `AppendCommitted`: the same without a lease. */
  lemma AppendCommittedMeans(st: State, sid: string, batch: seq<Event>, tokens: seq<EventId>)
    requires |tokens| == |batch|
    ensures var (after, r) := PlainCommitted(st, sid, batch, tokens);
            && (r.Ok? <==> AllGood(batch, sid)) && (r.Err? ==> after == st)
            && (forall i: nat :: FirstBad(batch, sid, i) ==> r.Err? && r.error == if Callless(batch[i]) then InvalidEvent else WrongSession)
            && (r.Ok? ==> st.Log(sid) <= after.Log(sid)
                          && |after.Log(sid)| == |st.Log(sid)| + FirstBefore(st.Log(sid), batch, tokens, |batch|))
            && (r.Ok? ==> |r.value| == |batch| && forall i :: 0 <= i < |batch| ==>
                            Answered(st.Log(sid), sid, batch, tokens, Commit(after.Log(sid), r.value), i))
            && (r.Ok? ==> AllNewest(after.Log(sid), r.value))
            && forall other :: other != sid ==> after.Log(other) == st.Log(other)
  {
    RefusedExactly(sid, batch);
    CommittedExactly(st.Log(sid), sid, batch, tokens);
    AnswersAreNewest(st.Log(sid), sid, batch, tokens);
  }
}
