/** The store as the source writes it: one object whose maps are updated in place, its appends
    loops over the batch. Each method is proved against the operation of module Store. */
module MemoryStores {
  import opened Basics
  import opened Events
  import opened Store

  method CheckBatch(sid: string, batch: seq<Event>) returns (error: Option<StoreError>)
    ensures error == BatchError(sid, batch)
  {
    for i := 0 to |batch|
      invariant BatchError(sid, batch) == BatchError(sid, batch[i..])
    {
      assert batch[i..][1..] == batch[i + 1..];
      if !ValidEvent(batch[i]) {
        return Some(InvalidEvent);
      }
      if batch[i].session != "" && batch[i].session != sid {
        return Some(WrongSession);
      }
    }
    return None;
  }

  class MemoryStore {
    var next: map<string, nat>
    var events: map<string, seq<Event>>
    var leases: map<string, Lease>
    var fences: map<string, nat>

    constructor ()
      ensures Abs() == EMPTY && Valid()
    {
      next, events, leases, fences := map[], map[], map[], map[];
    }

    ghost function Abs(): State
      reads this
    {
      State(next, events, leases, fences)
    }

    ghost predicate Valid()
      reads this
    {
      Inv(Abs())
    }

    method Sequence(sid: string) returns (seqNo: nat)
      requires Valid()
      ensures seqNo == |Abs().Log(sid)|
    {
      assert Abs().Next(sid) == |Abs().Log(sid)|;
      seqNo := if sid in next then next[sid] else 0;
    }

    method Replace(sid: string, log: seq<Event>)
      modifies this
      ensures Abs() == SetLog(old(Abs()), sid, log)
    {
      var current := if sid in events then events[sid] else [];
      if log != current {
        events := events[sid := log];
        next := next[sid := |log|];
      }
    }

    method Append(sid: string, batch: seq<Event>) returns (r: Result<nat>)
      requires Valid()
      modifies this
      ensures (Abs(), r) == AppendPlain(old(Abs()), sid, batch)
    {
      var bad := CheckBatch(sid, batch);
      if bad.Some? {
        return Err(bad.value);
      }
      var log := if sid in events then events[sid] else [];
      ghost var before := log;
      for i := 0 to |batch|
        invariant Abs() == old(Abs())
        invariant log == Appended(before, sid, batch[..i])
      {
        Snoc(batch, i);
        log := log + [Stored(batch[i], sid, |log| + 1)];
      }
      assert batch[..|batch|] == batch;
      Replace(sid, log);
      return Ok(|log|);
    }

    method FindById(log: seq<Event>, id: EventId) returns (found: Option<Event>)
      ensures found == Find(log, id)
    {
      found := None;
      for i := 0 to |log|
        invariant found == Find(log[..i], id)
      {
        Snoc(log, i);
        if log[i].id == id {
          found := Some(log[i]);
        }
      }
      assert log[..|log|] == log;
    }

    /** The loop both committed appends share. */
    method CommitBatch(sid: string, batch: seq<Event>, tokens: seq<EventId>) returns (committed: seq<Event>)
      requires |tokens| == |batch|
      modifies this
      ensures var c := Committed(old(Abs()).Log(sid), sid, batch, tokens);
              Abs() == SetLog(old(Abs()), sid, c.log) && committed == c.committed
    {
      var log := if sid in events then events[sid] else [];
      ghost var before := log;
      committed := [];
      for i := 0 to |batch|
        invariant Abs() == old(Abs())
        invariant Committed(before, sid, batch[..i], tokens[..i]) == Commit(log, committed)
      {
        Snoc(batch, i);
        Snoc(tokens, i);
        var e := WithId(batch[i], tokens[i]);
        var prior := FindById(log, e.id);
        if prior.Some? {
          committed := committed + [prior.value];
          continue;
        }
        var stored := Stored(e, sid, |log| + 1);
        committed := committed + [stored];
        log := log + [stored];
      }
      assert batch[..|batch|] == batch && tokens[..|tokens|] == tokens;
      Replace(sid, log);
    }

    method AppendCommitted(sid: string, batch: seq<Event>, tokens: seq<EventId>) returns (r: Result<seq<Event>>)
      requires Valid() && |tokens| == |batch|
      modifies this
      ensures (Abs(), r) == PlainCommitted(old(Abs()), sid, batch, tokens)
    {
      var bad := CheckBatch(sid, batch);
      if bad.Some? {
        return Err(bad.value);
      }
      var committed := CommitBatch(sid, batch, tokens);
      return Ok(committed);
    }

    method CheckFence(lease: Lease, now: nat) returns (ok: bool)
      ensures ok == Holds(Abs(), lease, now)
    {
      var fence := if lease.session in fences then fences[lease.session] else 0;
      ok := lease.session in leases && fence == lease.fence && leases[lease.session].token == lease.token
            && leases[lease.session].fence == lease.fence && now < leases[lease.session].expiresAt;
    }

    method AppendFenced(lease: Lease, batch: seq<Event>, now: nat) returns (r: Result<nat>)
      requires Valid()
      modifies this
      ensures (Abs(), r) == FencedAppend(old(Abs()), lease, batch, now)
    {
      var sid := lease.session;
      var bad := CheckBatch(sid, batch);
      if bad.Some? {
        return Err(bad.value);
      }
      var held := CheckFence(lease, now);
      if !held {
        return Err(LeaseLost);
      }
      var log := if sid in events then events[sid] else [];
      ghost var before := log;
      var existing := Ids(log);
      for i := 0 to |batch|
        invariant Abs() == old(Abs())
        invariant log == AppendedNew(before, sid, batch[..i])
      {
        Snoc(batch, i);
        if batch[i].id != NoId && batch[i].id in existing {
          continue;
        }
        log := log + [Stored(batch[i], sid, |log| + 1)];
      }
      assert batch[..|batch|] == batch;
      Replace(sid, log);
      return Ok(|log|);
    }

    method AppendFencedCommitted(lease: Lease, batch: seq<Event>, tokens: seq<EventId>, now: nat)
      returns (r: Result<seq<Event>>)
      requires Valid() && |tokens| == |batch|
      modifies this
      ensures (Abs(), r) == FencedCommitted(old(Abs()), lease, batch, tokens, now)
    {
      var bad := CheckBatch(lease.session, batch);
      if bad.Some? {
        return Err(bad.value);
      }
      var held := CheckFence(lease, now);
      if !held {
        return Err(LeaseLost);
      }
      var committed := CommitBatch(lease.session, batch, tokens);
      return Ok(committed);
    }

    method ClaimLease(sid: string, owner: string, ttl: int, token: string, now: nat) returns (r: Result<Lease>)
      modifies this
      ensures (Abs(), r) == Claim(old(Abs()), sid, owner, ttl, token, now)
    {
      var lifetime: nat := if ttl <= 0 then DEFAULT_TTL else ttl;
      if sid in leases && now < leases[sid].expiresAt {
        return Err(LeaseHeld);
      }
      var lease := Lease(sid, owner, token, (if sid in fences then fences[sid] else 0) + 1, now + lifetime);
      fences := fences[sid := lease.fence];
      leases := leases[sid := lease];
      return Ok(lease);
    }

    method RenewLease(lease: Lease, now: nat) returns (r: Result<Lease>)
      modifies this
      ensures (Abs(), r) == Renew(old(Abs()), lease, now)
    {
      var sid := lease.session;
      if sid !in leases || leases[sid].token != lease.token || leases[sid].fence != lease.fence || now >= leases[sid].expiresAt {
        return Err(LeaseLost);
      }
      var current := leases[sid].(expiresAt := now + DEFAULT_TTL);
      leases := leases[sid := current];
      return Ok(current);
    }

    method ReleaseLease(lease: Lease)
      modifies this
      ensures Abs() == Release(old(Abs()), lease)
    {
      if lease.session in leases && leases[lease.session].token == lease.token {
        leases := leases - {lease.session};
      }
    }

    /** Events after a sequence, at most `limit` of them; 0 means all. */
    method Load(sid: string, afterSeq: nat, limit: nat) returns (out: seq<Event>)
      requires Valid()
      ensures var log := Abs().Log(sid);
              var rest := if afterSeq <= |log| then log[afterSeq..] else [];
              out == if 0 < limit < |rest| then rest[..limit] else rest
    {
      ghost var whole := Abs().Log(sid);
      assert Contiguous(whole, sid);
      var all := if sid in events then events[sid] else [];
      out := [];
      for i := 0 to |all|
        invariant out == if i <= afterSeq then [] else all[afterSeq..i]
        invariant limit == 0 || |out| < limit
      {
        if all[i].seqNo > afterSeq {
          out := out + [all[i]];
          if limit > 0 && |out| >= limit {
            assert all[afterSeq..][..limit] == out;
            return;
          }
        }
      }
      assert afterSeq <= |all| ==> all[afterSeq..|all|] == all[afterSeq..];
    }

    /** The most recent events, newest last. */
    method Tail(sid: string, limit: int) returns (out: seq<Event>)
      ensures var log := Abs().Log(sid);
              out == if limit <= 0 || |log| <= limit then log else log[|log| - limit..]
    {
      var all := if sid in events then events[sid] else [];
      if limit <= 0 || |all| <= limit {
        return all;
      }
      var start := |all| - limit;
      out := [];
      for i := 0 to limit
        invariant out == all[start..start + i]
      {
        out := out + [all[start + i]];
      }
      assert all[start..start + limit] == all[start..];
    }
  }
}
