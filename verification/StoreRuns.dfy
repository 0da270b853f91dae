/** Safety of the store over whole runs: any number of workers claim, renew, release, let expire
    and append, in any order, with leases of any age. */
module StoreRuns {
  import opened Events
  import opened Store

  datatype Op =
    | DoClaim(sid: string, owner: string, ttl: int, token: string, now: nat)
    | DoRenew(lease: Lease, now: nat)
    | DoRelease(lease: Lease, now: nat)
    | DoAppend(sid: string, batch: seq<Event>, now: nat)
    | DoAppendCommitted(sid: string, batch: seq<Event>, tokens: seq<EventId>, now: nat)
    | DoAppendFenced(lease: Lease, batch: seq<Event>, now: nat)
    | DoAppendFencedCommitted(lease: Lease, batch: seq<Event>, tokens: seq<EventId>, now: nat)
  {
    /** The one session an operation is about. */
    function Session(): string {
      match this
      case DoClaim(sid, _, _, _, _) => sid
      case DoAppend(sid, _, _) => sid
      case DoAppendCommitted(sid, _, _, _) => sid
      case _ => lease.session
    }

    predicate WellFormed() {
      match this
      case DoAppendCommitted(_, batch, tokens, _) => |tokens| == |batch|
      case DoAppendFencedCommitted(_, batch, tokens, _) => |tokens| == |batch|
      case _ => true
    }

    predicate IsFenced() { DoAppendFenced? || DoAppendFencedCommitted? }

    /** Every append that compares event ids with the log. */
    predicate Deduplicates() { !DoAppend? }
  }

  function Step(st: State, op: Op): State
    requires op.WellFormed()
  {
    match op
    case DoClaim(sid, owner, ttl, token, now) => Claim(st, sid, owner, ttl, token, now).0
    case DoRenew(lease, now) => Renew(st, lease, now).0
    case DoRelease(lease, _) => Release(st, lease)
    case DoAppend(sid, batch, _) => AppendPlain(st, sid, batch).0
    case DoAppendCommitted(sid, batch, tokens, _) => PlainCommitted(st, sid, batch, tokens).0
    case DoAppendFenced(lease, batch, now) => FencedAppend(st, lease, batch, now).0
    case DoAppendFencedCommitted(lease, batch, tokens, now) => FencedCommitted(st, lease, batch, tokens, now).0
  }

  ghost predicate WellFormedRun(ops: seq<Op>) {
    forall op :: op in ops ==> op.WellFormed()
  }

  function Run(st: State, ops: seq<Op>): State
    requires forall op :: op in ops ==> op.WellFormed()
  {
    if |ops| == 0 then st else Step(Run(st, ops[..|ops| - 1]), ops[|ops| - 1])
  }

  // ---------------------------------------------------------------- one operation

  lemma SetLogKeeps(st: State, sid: string, log: seq<Event>)
    requires Inv(st) && Contiguous(log, sid)
    ensures Inv(SetLog(st, sid, log))
    ensures SetLog(st, sid, log).Log(sid) == log
    ensures forall other :: other != sid ==> SetLog(st, sid, log).Log(other) == st.Log(other)
    ensures SetLog(st, sid, log).leases == st.leases && SetLog(st, sid, log).fences == st.fences
  {
    var after := SetLog(st, sid, log);
    forall s ensures Contiguous(after.Log(s), s) && after.Next(s) == |after.Log(s)| {
      assert Contiguous(st.Log(s), s) && st.Next(s) == |st.Log(s)|;
    }
  }

  /** An append that ends with `log` in place, or is refused. */
  lemma AppendExtends(st: State, sid: string, log: seq<Event>, after: State)
    requires Inv(st) && Contiguous(log, sid) && st.Log(sid) <= log && (after == st || after == SetLog(st, sid, log))
    ensures Inv(after) && st.Log(sid) <= after.Log(sid) && forall other :: other != sid ==> after.Log(other) == st.Log(other)
  {
    SetLogKeeps(st, sid, log);
  }

  lemma FencedExtends(st: State, op: Op)
    requires Inv(st) && op.WellFormed() && op.IsFenced()
    ensures Inv(Step(st, op)) && st.Log(op.Session()) <= Step(st, op).Log(op.Session())
    ensures forall other :: other != op.Session() ==> Step(st, op).Log(other) == st.Log(other)
  {
    var sid := op.Session();
    assert Contiguous(st.Log(sid), sid);
    if op.DoAppendFenced? {
      AppendedNewContiguous(st.Log(sid), sid, op.batch);
      AppendExtends(st, sid, AppendedNew(st.Log(sid), sid, op.batch), Step(st, op));
    } else {
      CommittedContiguous(st.Log(sid), sid, op.batch, op.tokens);
      AppendExtends(st, sid, Committed(st.Log(sid), sid, op.batch, op.tokens).log, Step(st, op));
    }
  }

  lemma PlainExtends(st: State, op: Op)
    requires Inv(st) && op.WellFormed() && (op.DoAppend? || op.DoAppendCommitted?)
    ensures Inv(Step(st, op)) && st.Log(op.Session()) <= Step(st, op).Log(op.Session())
    ensures forall other :: other != op.Session() ==> Step(st, op).Log(other) == st.Log(other)
  {
    var sid := op.Session();
    assert Contiguous(st.Log(sid), sid);
    if op.DoAppend? {
      AppendedContiguous(st.Log(sid), sid, op.batch);
      AppendExtends(st, sid, Appended(st.Log(sid), sid, op.batch), Step(st, op));
    } else {
      CommittedContiguous(st.Log(sid), sid, op.batch, op.tokens);
      AppendExtends(st, sid, Committed(st.Log(sid), sid, op.batch, op.tokens).log, Step(st, op));
    }
  }

  /** What one operation does to the logs: it extends at most its own session's log. */
  lemma StepExtends(st: State, op: Op)
    requires Inv(st) && op.WellFormed()
    ensures Inv(Step(st, op))
    ensures st.Log(op.Session()) <= Step(st, op).Log(op.Session())
    ensures forall other :: other != op.Session() ==> Step(st, op).Log(other) == st.Log(other)
  {
    if op.IsFenced() {
      FencedExtends(st, op);
    } else if op.DoAppend? || op.DoAppendCommitted? {
      PlainExtends(st, op);
    } else {
      LeaseOpsExtend(st, op);
    }
  }

  lemma LeaseOpsExtend(st: State, op: Op)
    requires Inv(st) && (op.DoClaim? || op.DoRenew? || op.DoRelease?)
    ensures Inv(Step(st, op)) && forall sid :: Step(st, op).Log(sid) == st.Log(sid)
  {
    forall s ensures Contiguous(Step(st, op).Log(s), s) && Step(st, op).Next(s) == |Step(st, op).Log(s)| {
      assert Contiguous(st.Log(s), s) && st.Next(s) == |st.Log(s)|;
    }
  }

  /** Leases and fences of other sessions are untouched, and fences never decrease. */
  lemma StepFences(st: State, op: Op)
    requires op.WellFormed()
    ensures forall sid :: st.Fence(sid) <= Step(st, op).Fence(sid)
    ensures forall sid :: sid != op.Session() ==>
              && Step(st, op).Fence(sid) == st.Fence(sid)
              && (sid in Step(st, op).leases <==> sid in st.leases)
              && (sid in st.leases ==> Step(st, op).leases[sid] == st.leases[sid])
  {
  }

  // ---------------------------------------------------------------- whole runs

  /** Over every run: sequences stay exactly 1..n, each log only grows, and a session no operation
      names keeps its log. */
  lemma {:induction false} LogsOnlyGrow(st: State, ops: seq<Op>, sid: string)
    requires Inv(st) && WellFormedRun(ops)
    ensures Inv(Run(st, ops))
    ensures Contiguous(Run(st, ops).Log(sid), sid)
    ensures st.Log(sid) <= Run(st, ops).Log(sid)
    ensures (forall op :: op in ops ==> op.Session() != sid) ==> Run(st, ops).Log(sid) == st.Log(sid)
  {
    if |ops| > 0 {
      var before := ops[..|ops| - 1];
      assert ops == before + [ops[|ops| - 1]];
      LogsOnlyGrow(st, before, sid);
      StepExtends(Run(st, before), ops[|ops| - 1]);
    }
    assert Contiguous(Run(st, ops).Log(sid), sid);
  }

  lemma {:induction false} FencesOnlyGrow(st: State, ops: seq<Op>, sid: string)
    requires WellFormedRun(ops)
    ensures st.Fence(sid) <= Run(st, ops).Fence(sid)
  {
    if |ops| > 0 {
      var before := ops[..|ops| - 1];
      assert ops == before + [ops[|ops| - 1]];
      FencesOnlyGrow(st, before, sid);
      StepFences(Run(st, before), ops[|ops| - 1]);
    }
  }

  /** Two successful claims of one session, anything in between: the later fence is larger. */
  lemma ClaimsRaiseTheFence(st: State, sid: string, owner: string, ttl: int, token: string, now: nat,
                            ops: seq<Op>, owner': string, ttl': int, token': string, now': nat)
    requires WellFormedRun(ops)
    requires Claim(st, sid, owner, ttl, token, now).1.Ok?
    requires Claim(Run(Claim(st, sid, owner, ttl, token, now).0, ops), sid, owner', ttl', token', now').1.Ok?
    ensures Claim(st, sid, owner, ttl, token, now).1.value.fence
          < Claim(Run(Claim(st, sid, owner, ttl, token, now).0, ops), sid, owner', ttl', token', now').1.value.fence
  {
    FencesOnlyGrow(Claim(st, sid, owner, ttl, token, now).0, ops, sid);
  }

  // ---------------------------------------------------------------- what a lease is worth

  ghost predicate SomeoneHolds(st: State, sid: string, now: nat) {
    exists lease: Lease :: lease.session == sid && Holds(st, lease, now)
  }

  function Lifetime(ttl: int): nat { if ttl <= 0 then DEFAULT_TTL else ttl }

  /** The rest of the store: every log, and the leases and fences of other sessions. */
  ghost predicate OthersUntouched(st: State, after: State, sid: string) {
    && (forall s :: after.Log(s) == st.Log(s) && after.Next(s) == st.Next(s))
    && (forall s :: s != sid ==> after.Fence(s) == st.Fence(s))
    && (forall lease: Lease, t: nat :: lease.session != sid ==> (Holds(after, lease, t) <==> Holds(st, lease, t)))
  }

  lemma HeldLease(st: State, sid: string, now: nat)
    requires Inv(st)
    ensures SomeoneHolds(st, sid, now) <==> sid in st.leases && now < st.leases[sid].expiresAt
  {
    if sid in st.leases && now < st.leases[sid].expiresAt {
      assert Holds(st, st.leases[sid], now);
    }
  }

  /** A claim succeeds exactly when nobody holds the session; the claimed lease has the next fence,
      holds for exactly its lifetime, and no other token or fence holds the session then. */
  lemma ClaimMeans(st: State, sid: string, owner: string, ttl: int, token: string, now: nat)
    requires Inv(st)
    ensures var (after, r) := Claim(st, sid, owner, ttl, token, now);
            && (r.Err? <==> SomeoneHolds(st, sid, now)) && (r.Err? ==> after == st)
            && (r.Ok? ==> ClaimedAs(st, after, r.value, sid, token, now + Lifetime(ttl)) && r.value.owner == owner)
  {
    HeldLease(st, sid, now);
  }

  ghost predicate ClaimedAs(st: State, after: State, lease: Lease, sid: string, token: string, until: nat) {
    && lease.session == sid && lease.fence == st.Fence(sid) + 1 && OthersUntouched(st, after, sid)
    && forall x: Lease, t: nat :: x.session == sid ==> (Holds(after, x, t) <==> x.token == token && x.fence == lease.fence && t < until)
  }

  /** A renewal succeeds exactly for a lease that holds; token and fence keep holding, until the
      default lifetime from now is over. */
  lemma RenewMeans(st: State, lease: Lease, now: nat)
    requires Inv(st)
    ensures var (after, r) := Renew(st, lease, now);
            && (r.Ok? <==> Holds(st, lease, now)) && (r.Err? ==> after == st)
            && (r.Ok? ==> RenewedAs(st, after, r.value, lease, now + DEFAULT_TTL))
  {
  }

  ghost predicate RenewedAs(st: State, after: State, renewed: Lease, lease: Lease, until: nat) {
    && renewed.session == lease.session && after.Fence(lease.session) == lease.fence && OthersUntouched(st, after, lease.session)
    && renewed.token == lease.token && renewed.fence == lease.fence
    && forall x: Lease, t: nat :: x.session == lease.session ==>
         (Holds(after, x, t) <==> x.token == lease.token && x.fence == lease.fence && t < until)
  }

  /** After a release no lease with that token holds, at any time, the fence is remembered, and if
      the token was the current one anyone can claim at once; a stale token changes nothing. */
  lemma ReleaseMeans(st: State, lease: Lease, owner: string, ttl: int, token: string, now: nat)
    ensures var after := Release(st, lease);
            && OthersUntouched(st, after, lease.session) && after.Fence(lease.session) == st.Fence(lease.session)
            && (forall x: Lease, t: nat :: x.session == lease.session && x.token == lease.token ==> !Holds(after, x, t))
            && (if CurrentToken(st, lease) then Claim(after, lease.session, owner, ttl, token, now).1.Ok? else after == st)
  {
  }

  predicate CurrentToken(st: State, lease: Lease) {
    lease.session in st.leases && st.leases[lease.session].token == lease.token
  }

  /** The k-th operation claimed the session under this token and fence. */
  ghost predicate ClaimedAt(ops: seq<Op>, k: int, sid: string, token: string, fence: nat)
    requires WellFormedRun(ops)
  {
    && 0 <= k < |ops| && ops[k].DoClaim? && ops[k].sid == sid && ops[k].token == token
    && (forall op :: op in ops[..k] ==> op.WellFormed())
    && !SomeoneHolds(Run(EMPTY, ops[..k]), sid, ops[k].now) && Run(EMPTY, ops[..k]).Fence(sid) + 1 == fence
  }

  ghost predicate WasClaimed(ops: seq<Op>, sid: string, token: string, fence: nat)
    requires WellFormedRun(ops)
  {
    exists k :: ClaimedAt(ops, k, sid, token, fence)
  }

  lemma ClaimedGrows(ops: seq<Op>, sid: string, token: string, fence: nat)
    requires |ops| > 0 && WellFormedRun(ops) && WellFormedRun(ops[..|ops| - 1])
    requires WasClaimed(ops[..|ops| - 1], sid, token, fence)
    ensures WasClaimed(ops, sid, token, fence)
  {
    var before := ops[..|ops| - 1];
    var k :| ClaimedAt(before, k, sid, token, fence);
    assert before[..k] == ops[..k] && before[k] == ops[k];
    assert ClaimedAt(ops, k, sid, token, fence);
  }

  lemma NewLeaseIsClaimed(ops: seq<Op>, sid: string)
    requires |ops| > 0 && WellFormedRun(ops) && WellFormedRun(ops[..|ops| - 1]) && ops[|ops| - 1].DoClaim? && ops[|ops| - 1].sid == sid
    requires Claim(Run(EMPTY, ops[..|ops| - 1]), sid, ops[|ops| - 1].owner, ops[|ops| - 1].ttl, ops[|ops| - 1].token, ops[|ops| - 1].now).1.Ok?
    requires Inv(Run(EMPTY, ops[..|ops| - 1]))
    ensures WasClaimed(ops, sid, ops[|ops| - 1].token, Run(EMPTY, ops[..|ops| - 1]).Fence(sid) + 1)
  {
    var op := ops[|ops| - 1];
    ClaimMeans(Run(EMPTY, ops[..|ops| - 1]), sid, op.owner, op.ttl, op.token, op.now);
    assert ClaimedAt(ops, |ops| - 1, sid, op.token, Run(EMPTY, ops[..|ops| - 1]).Fence(sid) + 1);
  }

  /** Every lease the store keeps was claimed under its token and fence. */
  lemma {:induction false} LeasesAreClaimed(ops: seq<Op>, sid: string)
    requires WellFormedRun(ops) && sid in Run(EMPTY, ops).leases
    ensures WasClaimed(ops, sid, Run(EMPTY, ops).leases[sid].token, Run(EMPTY, ops).leases[sid].fence)
  {
    if |ops| > 0 {
      var before, op := ops[..|ops| - 1], ops[|ops| - 1];
      assert ops == before + [op];
      var st := Run(EMPTY, before);
      LogsOnlyGrow(EMPTY, before, sid);
      if op.DoClaim? && op.sid == sid && Claim(st, sid, op.owner, op.ttl, op.token, op.now).1.Ok? {
        NewLeaseIsClaimed(ops, sid);
      } else {
        LeaseKept(st, op, sid);
        LeasesAreClaimed(before, sid);
        ClaimedGrows(ops, sid, st.leases[sid].token, st.leases[sid].fence);
      }
    }
  }

  /** Only a successful claim changes the token or the fence of a kept lease. */
  lemma LeaseKept(st: State, op: Op, sid: string)
    requires op.WellFormed() && sid in Step(st, op).leases
    requires !(op.DoClaim? && op.sid == sid && Claim(st, sid, op.owner, op.ttl, op.token, op.now).1.Ok?)
    ensures sid in st.leases
    ensures Step(st, op).leases[sid].token == st.leases[sid].token && Step(st, op).leases[sid].fence == st.leases[sid].fence
  {
  }

  /** Whoever passes the fence check in a run claimed the session, at a moment when nobody held it,
      and no claim of the session has succeeded since. */
  lemma HolderClaimed(ops: seq<Op>, lease: Lease, now: nat)
    requires WellFormedRun(ops) && Holds(Run(EMPTY, ops), lease, now)
    ensures WasClaimed(ops, lease.session, lease.token, lease.fence) && Run(EMPTY, ops).Fence(lease.session) == lease.fence
  {
    LeasesAreClaimed(ops, lease.session);
  }

  /** A fenced append that changes the log in a run was made under a lease that was claimed in that
      run and that no later claim replaced. */
  lemma OnlyTheHolderWrites(ops: seq<Op>, op: Op)
    requires WellFormedRun(ops) && op.WellFormed() && op.IsFenced()
    requires Step(Run(EMPTY, ops), op).Log(op.Session()) != Run(EMPTY, ops).Log(op.Session())
    ensures Holds(Run(EMPTY, ops), op.lease, op.now)
    ensures WasClaimed(ops, op.Session(), op.lease.token, op.lease.fence)
    ensures Run(EMPTY, ops).Fence(op.Session()) == op.lease.fence
    ensures forall other: Lease :: other.session == op.Session() && Holds(Run(EMPTY, ops), other, op.now)
              ==> other.fence == op.lease.fence && other.token == op.lease.token
  {
    HolderClaimed(ops, op.lease, op.now);
  }

  /** A lease is dead from time `t` on when it is not the current one, or has expired by then. */
  ghost predicate Dead(st: State, lease: Lease, t: nat) {
    && lease.fence <= st.Fence(lease.session)
    && (lease.session in st.leases && st.leases[lease.session].fence == lease.fence
        ==> st.leases[lease.session].expiresAt <= t || st.leases[lease.session].token != lease.token)
  }

  /** A replaced, released or expired lease never writes again: no run of later operations, by
      whatever workers, revives it. */
  lemma {:induction false} DeadLeaseNeverWrites(st: State, lease: Lease, t: nat, ops: seq<Op>, batch: seq<Event>,
        now: nat)
    requires Inv(st) && WellFormedRun(ops) && Dead(st, lease, t) && t <= now
    requires forall op :: op in ops ==> t <= op.now
    ensures Dead(Run(st, ops), lease, t)
    ensures BatchError(lease.session, batch).None? ==>
              FencedAppend(Run(st, ops), lease, batch, now) == (Run(st, ops), Err(LeaseLost))
    ensures forall tokens: seq<EventId> :: |tokens| == |batch| && BatchError(lease.session, batch).None? ==>
              FencedCommitted(Run(st, ops), lease, batch, tokens, now) == (Run(st, ops), Err(LeaseLost))
    ensures Renew(Run(st, ops), lease, now) == (Run(st, ops), Err(LeaseLost))
  {
    if |ops| > 0 {
      var before := ops[..|ops| - 1];
      assert ops == before + [ops[|ops| - 1]];
      DeadLeaseNeverWrites(st, lease, t, before, batch, now);
      LogsOnlyGrow(st, before, lease.session);
      assert ops[|ops| - 1] in ops;
      DeadStaysDead(Run(st, before), ops[|ops| - 1], lease, t);
    }
  }

  lemma DeadStaysDead(st: State, op: Op, lease: Lease, t: nat)
    requires Inv(st) && op.WellFormed() && Dead(st, lease, t) && t <= op.now
    ensures Dead(Step(st, op), lease, t)
  {
    StepFences(st, op);
  }

  /** A successful claim kills every lease of the session claimed before it, at once. */
  lemma ClaimKillsOlderLeases(st: State, sid: string, owner: string, ttl: int, token: string, now: nat, lease: Lease)
    requires lease.session == sid && lease.fence <= st.Fence(sid) && Claim(st, sid, owner, ttl, token, now).1.Ok?
    ensures Dead(Claim(st, sid, owner, ttl, token, now).0, lease, 0)
  {
  }

  // ---------------------------------------------------------------- idempotent retries

  /** The log grew without repeating an id it already had. */
  ghost predicate KeepsIds(before: seq<Event>, after: seq<Event>) {
    && before <= after
    && forall i :: |before| <= i < |after| && after[i].id != NoId ==> after[i].id !in Ids(before)
  }

  lemma IdsMonotone(a: seq<Event>, b: seq<Event>)
    requires a <= b
    ensures Ids(a) <= Ids(b)
  {
    forall e | e in a ensures e in b {
      var i :| 0 <= i < |a| && a[i] == e;
      assert b[i] == e;
    }
  }

  lemma KeepsIdsTransitive(a: seq<Event>, b: seq<Event>, c: seq<Event>)
    requires KeepsIds(a, b) && KeepsIds(b, c)
    ensures KeepsIds(a, c)
  {
    IdsMonotone(a, b);
    forall i | |a| <= i < |c| && c[i].id != NoId ensures c[i].id !in Ids(a) {
      if i < |b| { assert b[i] == c[i]; }
    }
  }

  lemma {:induction false} FindIsFound(log: seq<Event>, id: EventId)
    requires id != NoId
    ensures Find(log, id).Some? <==> id in Ids(log)
    ensures Find(log, id).Some? ==> Find(log, id).value.id == id
  {
    if |log| > 0 {
      var before := log[..|log| - 1];
      assert log == before + [log[|log| - 1]];
      FindIsFound(before, id);
    }
  }

  /** Growth that repeats no id leaves the canonical event of an id alone. */
  lemma {:induction false} FindStable(before: seq<Event>, after: seq<Event>, id: EventId)
    requires KeepsIds(before, after) && id != NoId && id in Ids(before)
    ensures Find(after, id) == Find(before, id)
    decreases |after|
  {
    if |after| > |before| {
      var init := after[..|after| - 1];
      assert before <= init;
      assert forall i :: 0 <= i < |init| ==> init[i] == after[i];
      assert after[|after| - 1].id != id;
      FindStable(before, init, id);
    } else {
      assert before == after;
    }
  }

  lemma {:induction false} AppendedNewKeepsIds(log: seq<Event>, sid: string, batch: seq<Event>)
    ensures KeepsIds(log, AppendedNew(log, sid, batch))
  {
    if |batch| > 0 {
      AppendedNewKeepsIds(log, sid, batch[..|batch| - 1]);
    }
  }

  lemma {:induction false} CommittedKeepsIds(log: seq<Event>, sid: string, batch: seq<Event>, tokens: seq<EventId>)
    requires |tokens| == |batch|
    ensures KeepsIds(log, Committed(log, sid, batch, tokens).log)
  {
    if |batch| > 0 {
      var before := Committed(log, sid, batch[..|batch| - 1], tokens[..|batch| - 1]);
      CommittedKeepsIds(log, sid, batch[..|batch| - 1], tokens[..|batch| - 1]);
      var e := WithId(batch[|batch| - 1], tokens[|batch| - 1]);
      if Find(before.log, e.id).None? {
        CommitStepKeepsIds(log, before.log, sid, e);
      }
    }
  }

  lemma CommitStepKeepsIds(log: seq<Event>, mid: seq<Event>, sid: string, e: Event)
    requires KeepsIds(log, mid) && Find(mid, e.id).None?
    ensures KeepsIds(log, mid + [Stored(e, sid, |mid| + 1)])
  {
    if e.id != NoId {
      FindIsFound(mid, e.id);
      IdsMonotone(log, mid);
    }
  }

  ghost predicate NamedBatch(batch: seq<Event>) { forall e :: e in batch ==> e.id != NoId }

  /** A committed batch is on the log, at each position, as its canonical event. */
  lemma {:induction false} CommittedIsFound(log: seq<Event>, sid: string, batch: seq<Event>, tokens: seq<EventId>,
        i: nat)
    requires |tokens| == |batch| && NamedBatch(batch) && i < |batch|
    ensures |Committed(log, sid, batch, tokens).committed| == |batch|
    ensures Find(Committed(log, sid, batch, tokens).log, batch[i].id) == Some(Committed(log, sid, batch, tokens).committed[i])
  {
    var init, last := batch[..|batch| - 1], batch[|batch| - 1];
    var c := Committed(log, sid, init, tokens[..|batch| - 1]);
    assert batch == init + [last];
    CommittedLength(log, sid, init, tokens[..|batch| - 1]);
    if i < |init| {
      CommittedIsFound(log, sid, init, tokens[..|batch| - 1], i);
      FindIsFound(c.log, batch[i].id);
      if Find(c.log, last.id).None? {
        CommitStepKeepsIds(c.log, c.log, sid, last);
        FindStable(c.log, c.log + [Stored(last, sid, |c.log| + 1)], batch[i].id);
      }
    } else if Find(c.log, last.id).None? {
      var stored := Stored(last, sid, |c.log| + 1);
      assert (c.log + [stored])[..|c.log|] == c.log;
    }
  }

  lemma {:induction false} CommittedLength(log: seq<Event>, sid: string, batch: seq<Event>, tokens: seq<EventId>)
    requires |tokens| == |batch|
    ensures |Committed(log, sid, batch, tokens).committed| == |batch|
  {
    if |batch| > 0 {
      CommittedLength(log, sid, batch[..|batch| - 1], tokens[..|batch| - 1]);
    }
  }

  /** Committing a batch whose canonical events are all on the log changes nothing and returns them. */
  lemma {:induction false} CommitAgain(log: seq<Event>, sid: string, batch: seq<Event>, tokens: seq<EventId>,
        canonical: seq<Event>)
    requires |tokens| == |batch| == |canonical| && NamedBatch(batch)
    requires forall i :: 0 <= i < |batch| ==> Find(log, batch[i].id) == Some(canonical[i])
    ensures Committed(log, sid, batch, tokens) == Commit(log, canonical)
  {
    if |batch| > 0 {
      var init := batch[..|batch| - 1];
      assert batch == init + [batch[|batch| - 1]];
      CommitAgain(log, sid, init, tokens[..|batch| - 1], canonical[..|batch| - 1]);
      assert canonical == canonical[..|batch| - 1] + [canonical[|batch| - 1]];
    } else {
      assert canonical == [];
    }
  }

  /** Every deduplicating operation keeps the canonical events of the ids on the log. */
  lemma {:induction false} DeduplicatingRunKeepsIds(st: State, ops: seq<Op>, sid: string)
    requires Inv(st) && WellFormedRun(ops) && forall op :: op in ops ==> op.Deduplicates()
    ensures KeepsIds(st.Log(sid), Run(st, ops).Log(sid))
  {
    if |ops| > 0 {
      var before, op := ops[..|ops| - 1], ops[|ops| - 1];
      assert ops == before + [op];
      DeduplicatingRunKeepsIds(st, before, sid);
      LogsOnlyGrow(st, before, sid);
      var mid := Run(st, before);
      StepKeepsIds(mid, op, sid);
      KeepsIdsTransitive(st.Log(sid), mid.Log(sid), Run(st, ops).Log(sid));
    }
  }

  lemma StepKeepsIds(st: State, op: Op, sid: string)
    requires Inv(st) && op.WellFormed() && op.Deduplicates()
    ensures KeepsIds(st.Log(sid), Step(st, op).Log(sid))
  {
    StepExtends(st, op);
    if sid == op.Session() {
      match op {
        case DoAppendCommitted(_, batch, tokens, _) => CommittedKeepsIds(st.Log(sid), sid, batch, tokens);
        case DoAppendFenced(_, batch, _) => AppendedNewKeepsIds(st.Log(sid), sid, batch);
        case DoAppendFencedCommitted(_, batch, tokens, _) => CommittedKeepsIds(st.Log(sid), sid, batch, tokens);
        case _ =>
      }
    }
  }

  /** What a committed batch leaves on the log is what committing it again finds, after any run of
      deduplicating operations. */
  lemma CommittedStays(st: State, sid: string, batch: seq<Event>, tokens: seq<EventId>, ops: seq<Op>,
        tokens': seq<EventId>)
    requires Inv(st) && NamedBatch(batch) && |tokens| == |batch| == |tokens'|
    requires Inv(SetLog(st, sid, Committed(st.Log(sid), sid, batch, tokens).log))
    requires WellFormedRun(ops) && forall op :: op in ops ==> op.Deduplicates()
    ensures var c := Committed(st.Log(sid), sid, batch, tokens);
            var log := Run(SetLog(st, sid, c.log), ops).Log(sid);
            Committed(log, sid, batch, tokens') == Commit(log, c.committed)
  {
    var c := Committed(st.Log(sid), sid, batch, tokens);
    assert Contiguous(st.Log(sid), sid);
    CommittedContiguous(st.Log(sid), sid, batch, tokens);
    SetLogKeeps(st, sid, c.log);
    DeduplicatingRunKeepsIds(SetLog(st, sid, c.log), ops, sid);
    CommittedOnLater(st.Log(sid), sid, batch, tokens, Run(SetLog(st, sid, c.log), ops).Log(sid), tokens');
  }

  lemma CommittedOnLater(log: seq<Event>, sid: string, batch: seq<Event>, tokens: seq<EventId>, later: seq<Event>,
        tokens': seq<EventId>)
    requires NamedBatch(batch) && |tokens| == |batch| == |tokens'|
    requires KeepsIds(Committed(log, sid, batch, tokens).log, later)
    ensures Committed(later, sid, batch, tokens') == Commit(later, Committed(log, sid, batch, tokens).committed)
  {
    var c := Committed(log, sid, batch, tokens);
    CommittedLength(log, sid, batch, tokens);
    forall i: nat | i < |batch| ensures Find(later, batch[i].id) == Some(c.committed[i]) {
      assert batch[i] in batch;
      CommittedIsFound(log, sid, batch, tokens, i);
      FindIsFound(c.log, batch[i].id);
      FindStable(c.log, later, batch[i].id);
    }
    CommitAgain(later, sid, batch, tokens', c.committed);
  }

  /** Idempotent committed append: retrying a batch of named events, after any run of deduplicating
      operations, leaves the store as it is and returns the same events position by position. */
  lemma RetryIsIdempotent(st: State, sid: string, batch: seq<Event>, tokens: seq<EventId>, ops: seq<Op>,
        tokens': seq<EventId>)
    requires Inv(st) && NamedBatch(batch) && BatchError(sid, batch).None? && |tokens| == |batch| == |tokens'|
    requires WellFormedRun(ops) && forall op :: op in ops ==> op.Deduplicates()
    ensures var (first, result) := PlainCommitted(st, sid, batch, tokens);
            var later := Run(first, ops);
            PlainCommitted(later, sid, batch, tokens') == (later, result)
  {
    StepExtends(st, DoAppendCommitted(sid, batch, tokens, 0));
    CommittedStays(st, sid, batch, tokens, ops, tokens');
  }

  /** The same for the append the loop uses: the retry may come from another worker, under any lease
      of the session that holds by then. */
  lemma FencedRetryIsIdempotent(st: State, lease: Lease, batch: seq<Event>, tokens: seq<EventId>, now: nat,
        ops: seq<Op>, lease': Lease, tokens': seq<EventId>, now': nat)
    requires Inv(st) && NamedBatch(batch) && |tokens| == |batch| == |tokens'|
    requires WellFormedRun(ops) && forall op :: op in ops ==> op.Deduplicates()
    requires FencedCommitted(st, lease, batch, tokens, now).1.Ok? && lease'.session == lease.session
    requires Holds(Run(FencedCommitted(st, lease, batch, tokens, now).0, ops), lease', now')
    ensures var (first, result) := FencedCommitted(st, lease, batch, tokens, now);
            var later := Run(first, ops);
            FencedCommitted(later, lease', batch, tokens', now') == (later, result)
  {
    StepExtends(st, DoAppendFencedCommitted(lease, batch, tokens, now));
    CommittedStays(st, lease.session, batch, tokens, ops, tokens');
  }

  // ---------------------------------------------------------------- unique ids

  ghost predicate UniqueIds(log: seq<Event>) {
    forall i, j :: 0 <= i < j < |log| && log[i].id != NoId ==> log[i].id != log[j].id
  }

  lemma IdsAt(log: seq<Event>, id: EventId)
    requires id != NoId
    ensures id in Ids(log) <==> exists i :: 0 <= i < |log| && log[i].id == id
  {
    if id in Ids(log) {
      var e :| e in log && e.id == id;
      var i :| 0 <= i < |log| && log[i] == e;
    }
  }

  /** Committed appends keep ids unique, repeated ids inside the batch included. */
  lemma {:induction false} CommittedKeepsUniqueIds(log: seq<Event>, sid: string, batch: seq<Event>,
        tokens: seq<EventId>)
    requires UniqueIds(log) && |tokens| == |batch|
    ensures UniqueIds(Committed(log, sid, batch, tokens).log)
  {
    if |batch| > 0 {
      CommittedKeepsUniqueIds(log, sid, batch[..|batch| - 1], tokens[..|batch| - 1]);
      var before := Committed(log, sid, batch[..|batch| - 1], tokens[..|batch| - 1]).log;
      var e := WithId(batch[|batch| - 1], tokens[|batch| - 1]);
      if e.id != NoId {
        FindIsFound(before, e.id);
        IdsAt(before, e.id);
      }
    }
  }

  ghost predicate NewIdsDistinct(log: seq<Event>, batch: seq<Event>) {
    forall i, j :: 0 <= i < j < |batch| && batch[i].id != NoId && batch[i].id !in Ids(log) ==> batch[i].id != batch[j].id
  }

  /** What a fenced append adds, in terms of the batch. */
  lemma {:induction false} AppendedNewMembers(log: seq<Event>, sid: string, batch: seq<Event>, id: EventId)
    requires id != NoId
    ensures id in Ids(AppendedNew(log, sid, batch)) <==> id in Ids(log) || exists i :: 0 <= i < |batch| && batch[i].id == id
  {
    if |batch| > 0 {
      var init, last := batch[..|batch| - 1], batch[|batch| - 1];
      AppendedNewMembers(log, sid, init, id);
      var before := AppendedNew(log, sid, init);
      assert (exists i :: 0 <= i < |batch| && batch[i].id == id) <==> ((exists i :: 0 <= i < |init| && init[i].id == id) || last.id == id) by {
        if exists i :: 0 <= i < |init| && init[i].id == id {
          var i :| 0 <= i < |init| && init[i].id == id;
          assert batch[i].id == id;
        }
        if last.id == id { assert batch[|batch| - 1].id == id; }
      }
      if !(last.id != NoId && last.id in Ids(log)) {
        var stored := Stored(last, sid, |before| + 1);
        assert forall e :: e in before + [stored] <==> e in before || e == stored;
      }
    }
  }

  /** A fenced append compares the batch with the log but not with itself, so it keeps ids unique
      exactly when the batch's new ids are distinct. */
  lemma {:induction false} FencedUniqueIdsExactly(log: seq<Event>, sid: string, batch: seq<Event>)
    requires UniqueIds(log)
    ensures UniqueIds(AppendedNew(log, sid, batch)) <==> NewIdsDistinct(log, batch)
  {
    if |batch| > 0 {
      var init, last := batch[..|batch| - 1], batch[|batch| - 1];
      var before := AppendedNew(log, sid, init);
      FencedUniqueIdsExactly(log, sid, init);
      NewIdsSnoc(log, batch);
      if last.id != NoId && last.id !in Ids(log) {
        AppendedNewMembers(log, sid, init, last.id);
        UniqueSnoc(before, Stored(last, sid, |before| + 1));
      } else if last.id == NoId {
        UniqueSnoc(before, Stored(last, sid, |before| + 1));
      }
    }
  }

  /** One batch with an id twice: the fenced append stores it twice, the committed one once. */
  lemma RepeatedIdIsStoredTwice(e: Event, sid: string)
    requires e.id != NoId
    ensures |AppendedNew([], sid, [e, e])| == 2 && !UniqueIds(AppendedNew([], sid, [e, e]))
    ensures |Committed([], sid, [e, e], [e.id, e.id]).log| == 1
  {
    assert [e, e][..1] == [e] && [e][..0] == [] && [e.id, e.id][..1] == [e.id] && [e.id][..0] == [];
    var none: seq<Event> := [];
    assert Ids(none) == {} && IsNew(none, e) && AppendedNew(none, sid, []) == none;
    var once := AppendedNew([], sid, [e]);
    assert once == [] + [Stored(e, sid, 1)];
    var twice := AppendedNew([], sid, [e, e]);
    assert twice == once + [Stored(e, sid, 2)];
    assert twice[0].id == e.id && twice[1].id == e.id;
    assert Committed([], sid, [e], [e.id]).log == [] + [Stored(e, sid, 1)];
    assert Find([] + [Stored(e, sid, 1)], e.id).Some?;
  }

  lemma UniqueSnoc(log: seq<Event>, e: Event)
    ensures UniqueIds(log + [e]) <==> UniqueIds(log) && (e.id != NoId ==> e.id !in Ids(log))
  {
    var all := log + [e];
    if e.id != NoId { IdsAt(log, e.id); }
    if UniqueIds(all) {
      forall i, j | 0 <= i < j < |log| && log[i].id != NoId ensures log[i].id != log[j].id {
        assert all[i] == log[i] && all[j] == log[j];
      }
      assert forall i :: 0 <= i < |log| && all[i].id != NoId ==> all[i].id != all[|log|].id;
      assert forall i :: 0 <= i < |log| ==> all[i] == log[i];
    }
  }

  lemma NewIdsSnoc(log: seq<Event>, batch: seq<Event>)
    requires |batch| > 0
    ensures var init, last := batch[..|batch| - 1], batch[|batch| - 1];
            NewIdsDistinct(log, batch) <==>
              NewIdsDistinct(log, init) && (last.id != NoId && last.id !in Ids(log) ==> forall i :: 0 <= i < |init| ==> init[i].id != last.id)
  {
    var init, last := batch[..|batch| - 1], batch[|batch| - 1];
    assert forall i :: 0 <= i < |init| ==> init[i] == batch[i];
  }
}
