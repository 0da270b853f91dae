/** When a live subscriber is terminated, and what it is sent besides the sequenced events
    (agent/events.go:341-424), in terms of what was published and what the reader took. */
module DeliveryLimits {
  import opened Events
  import opened Delivery

  // ---------------------------------------------------------------- what one publication asks for

  /** The first sequence after `after` that was not published. */
  ghost predicate FirstMissing(after: nat, published: set<nat>, q: nat) {
    after < q && q !in published && forall p :: after < p < q ==> p in published
  }

  /** The published sequences that wait for a missing one. */
  function Waiting(published: set<nat>, missing: nat): set<nat> { set q | q in published && q > missing }

  /** What still fits into the channel. */
  function Space(s: Sub, limit: nat): int { limit - (|s.sent| - s.taken) }

  /** What the next publication asks of a subscriber whose cursor stands at `from`, when afterwards
      `to` is the first sequence missing: more channel than there is, for the passing events up to it,
      or more sequences to wait than the limit allows. */
  ghost predicate Overflows(s: Sub, history: seq<Event>, keep: Filter, limit: nat, e: Event, published: set<nat>, from: nat, to: nat)
    requires 0 < from && 0 < to
  {
    if e.seqNo == 0 then keep(e) && Space(s, limit) <= 0
    else |Passing(history, keep, from - 1, to - 1)| > Space(s, limit) || |Waiting(published, to)| > limit
  }

  lemma TracksFirst(s: Sub, after: nat, published: set<nat>, limit: nat)
    requires Tracks(s, after, published, limit)
    ensures FirstMissing(after, published, s.nextSeq) && s.pending.Keys == Waiting(published, s.nextSeq)
    ensures |Waiting(published, s.nextSeq)| <= limit
  {
    assert |s.pending| == |s.pending.Keys|;
  }

  lemma FirstIsUnique(after: nat, published: set<nat>, p: nat, q: nat)
    requires FirstMissing(after, published, p) && FirstMissing(after, published, q)
    ensures p == q
  {
  }

  lemma PassingOne(history: seq<Event>, keep: Filter, q: nat, high: nat)
    requires History(history) && 0 < q <= high && q <= |history|
    ensures |Passing(history, keep, q - 1, high)| == (if keep(history[q - 1]) then 1 else 0) + |Passing(history, keep, q, high)|
  {
    PassingSplit(history, keep, q - 1, q, high);
    assert Passing(history, keep, q - 1, q - 1) == [];
  }

  /** One buffered event passed by a flush. */
  function Passed(s: Sub, keep: Filter): Sub
    requires s.nextSeq in s.pending
  {
    var e := s.pending[s.nextSeq];
    s.(sent := if keep(e) then s.sent + [e] else s.sent, pending := s.pending - {s.nextSeq}, nextSeq := s.nextSeq + 1)
  }

  lemma PassedKeeps(s: Sub, history: seq<Event>, keep: Filter, limit: nat, low: nat, published: set<nat>, to: nat)
    requires Buffers(s, history) && Fits(s, limit) && Tracking(s, low, published, limit) && FirstMissing(low, published, to)
    requires s.nextSeq in s.pending && (keep(s.pending[s.nextSeq]) ==> Room(s, limit))
    ensures Buffers(Passed(s, keep), history) && Fits(Passed(s, keep), limit) && Tracking(Passed(s, keep), low, published, limit)
    ensures Space(Passed(s, keep), limit) == Space(s, limit) - (if keep(s.pending[s.nextSeq]) then 1 else 0)
  {
    TrackingStep(s, low, published, limit, Passed(s, keep).sent);
  }

  lemma NothingDue(s: Sub, history: seq<Event>, keep: Filter, low: nat, published: set<nat>, limit: nat, to: nat)
    requires Tracking(s, low, published, limit) && FirstMissing(low, published, to) && 0 < s.nextSeq <= to && s.nextSeq !in s.pending
    ensures to == s.nextSeq && Passing(history, keep, s.nextSeq - 1, to - 1) == []
  {
  }

  lemma FlushUnfolds(s: Sub, keep: Filter, limit: nat)
    ensures Flush(s, keep, limit) == if s.nextSeq !in s.pending then s
                                     else if keep(s.pending[s.nextSeq]) && !Room(s, limit) then Terminated(s, true)
                                     else Flush(Passed(s, keep), keep, limit)
    ensures s.nextSeq in s.pending ==> |Passed(s, keep).pending| < |s.pending|
  {
  }

  /** A flush ends the subscriber exactly when the passing events up to the first missing sequence do
      not fit into the channel. */
  lemma {:induction false} FlushTerminates(s: Sub, history: seq<Event>, keep: Filter, limit: nat, low: nat, published: set<nat>, to: nat)
    requires History(history) && Buffers(s, history) && Fits(s, limit) && s.active && 0 < s.nextSeq <= to
    requires Tracking(s, low, published, limit) && FirstMissing(low, published, to)
    ensures Flush(s, keep, limit).active <==> |Passing(history, keep, s.nextSeq - 1, to - 1)| <= Space(s, limit)
    ensures !Flush(s, keep, limit).active ==> Flush(s, keep, limit).lagged
    decreases |s.pending|
  {
    FlushUnfolds(s, keep, limit);
    if s.nextSeq in s.pending {
      PassingOne(history, keep, s.nextSeq, to - 1);
      if !keep(s.pending[s.nextSeq]) || Room(s, limit) {
        PassedKeeps(s, history, keep, limit, low, published, to);
        FlushTerminates(Passed(s, keep), history, keep, limit, low, published, to);
      }
    } else {
      NothingDue(s, history, keep, low, published, limit, to);
    }
  }

  /** The subscriber once the expected event was passed or sent. */
  function Expected(s: Sub, keep: Filter, e: Event): Sub {
    s.(sent := if keep(e) then s.sent + [e] else s.sent, nextSeq := s.nextSeq + 1)
  }

  lemma PublishUnfolds(s: Sub, keep: Filter, limit: nat, e: Event)
    requires s.active && e.seqNo == s.nextSeq > 0
    ensures Publish(s, keep, limit, e)
         == if keep(e) && !Room(s, limit) then Terminated(s, true) else Flush(Expected(s, keep, e), keep, limit)
  {
  }

  lemma ExpectedKeeps(s: Sub, history: seq<Event>, keep: Filter, limit: nat, after: nat, published: set<nat>, e: Event)
    requires History(history) && Publishable(history, e) && LiveOk(s, history, after, published, limit) && s.active
    requires e.seqNo == s.nextSeq > 0 && (keep(e) ==> Room(s, limit))
    ensures Buffers(Expected(s, keep, e), history) && Fits(Expected(s, keep, e), limit)
    ensures Tracking(Expected(s, keep, e), after, Seen(published, e), limit)
    ensures Space(Expected(s, keep, e), limit) == Space(s, limit) - (if keep(e) then 1 else 0)
  {
    NextTracks(s, e, after, published, limit, Expected(s, keep, e).sent);
  }

  lemma NextMissing(s: Sub, after: nat, published: set<nat>, limit: nat, e: Event, to: nat)
    requires Tracks(s, after, published, limit) && e.seqNo == s.nextSeq > 0 && FirstMissing(after, Seen(published, e), to)
    ensures s.nextSeq < to
  {
  }

  /** What a publication does after which a flush may follow. */
  lemma ExpectedFlushes(s: Sub, history: seq<Event>, keep: Filter, limit: nat, low: nat, seen: set<nat>, e: Event, to: nat)
    requires History(history) && 0 < e.seqNo <= |history| && e == history[e.seqNo - 1]
    requires s.active && e.seqNo == s.nextSeq < to && Fits(s, limit) && FirstMissing(low, seen, to)
    requires (keep(e) ==> Room(s, limit)) ==>
               Buffers(Expected(s, keep, e), history) && Fits(Expected(s, keep, e), limit) && Tracking(Expected(s, keep, e), low, seen, limit)
    ensures Publish(s, keep, limit, e).active <==> |Passing(history, keep, s.nextSeq - 1, to - 1)| <= Space(s, limit)
    ensures !Publish(s, keep, limit, e).active ==> Publish(s, keep, limit, e).lagged
  {
    PublishUnfolds(s, keep, limit, e);
    PassingOne(history, keep, s.nextSeq, to - 1);
    if !keep(e) || Room(s, limit) {
      FlushTerminates(Expected(s, keep, e), history, keep, limit, low, seen, to);
    }
  }

  /** The expected event itself, with everything it releases. */
  lemma ExpectedTerminates(s: Sub, history: seq<Event>, keep: Filter, limit: nat, after: nat, published: set<nat>, e: Event, to: nat)
    requires History(history) && Publishable(history, e) && LiveOk(s, history, after, published, limit) && s.active
    requires e.seqNo == s.nextSeq > 0 && FirstMissing(after, Seen(published, e), to)
    ensures Publish(s, keep, limit, e).active <==> |Passing(history, keep, s.nextSeq - 1, to - 1)| <= Space(s, limit)
    ensures !Publish(s, keep, limit, e).active ==> Publish(s, keep, limit, e).lagged
  {
    NextMissing(s, after, published, limit, e, to);
    if !keep(e) || Room(s, limit) { ExpectedKeeps(s, history, keep, limit, after, published, e); }
    ExpectedFlushes(s, history, keep, limit, after, Seen(published, e), e, to);
  }

  /** What waits once the expected event has come waited before. */
  lemma WaitingShrinks(s: Sub, after: nat, published: set<nat>, limit: nat, e: Event, to: nat)
    requires Tracks(s, after, published, limit) && e.seqNo <= s.nextSeq && FirstMissing(after, Seen(published, e), to)
    ensures s.nextSeq <= to && |Waiting(Seen(published, e), to)| <= limit
    ensures e.seqNo < s.nextSeq ==> to == s.nextSeq
  {
    if e.seqNo < s.nextSeq { FirstIsUnique(after, Seen(published, e), s.nextSeq, to); }
    var waiting := Waiting(Seen(published, e), to);
    assert waiting <= s.pending.Keys;
    assert s.pending.Keys == waiting + (s.pending.Keys - waiting);
    assert |s.pending| == |s.pending.Keys|;
  }

  /** One publication terminates an active subscriber if and only if it overflows the channel or the
      buffer; the subscriber is then lagged. */
  lemma PublishTerminates(s: Sub, history: seq<Event>, keep: Filter, limit: nat, after: nat, published: set<nat>, e: Event, to: nat)
    requires History(history) && Publishable(history, e) && LiveOk(s, history, after, published, limit) && s.active
    requires FirstMissing(after, Seen(published, e), to)
    ensures 0 < s.nextSeq
    ensures !Publish(s, keep, limit, e).active <==> Overflows(s, history, keep, limit, e, Seen(published, e), s.nextSeq, to)
    ensures !Publish(s, keep, limit, e).active ==> Publish(s, keep, limit, e).lagged
  {
    if 0 < e.seqNo <= s.nextSeq {
      WaitingShrinks(s, after, published, limit, e, to);
      if e.seqNo == s.nextSeq { ExpectedTerminates(s, history, keep, limit, after, published, e, to); }
    } else if e.seqNo > s.nextSeq {
      AheadWaits(s, after, published, limit, e, to);
    }
    assert Passing(history, keep, s.nextSeq - 1, s.nextSeq - 1) == [];
  }

  lemma AheadWaits(s: Sub, after: nat, published: set<nat>, limit: nat, e: Event, to: nat)
    requires Tracks(s, after, published, limit) && e.seqNo > s.nextSeq && FirstMissing(after, Seen(published, e), to)
    ensures to == s.nextSeq && |s.pending[e.seqNo := e]| == |Waiting(Seen(published, e), to)|
  {
    FirstIsUnique(after, Seen(published, e), s.nextSeq, to);
    assert s.pending[e.seqNo := e].Keys == Waiting(Seen(published, e), to);
    assert |s.pending[e.seqNo := e]| == |s.pending[e.seqNo := e].Keys|;
  }

  // ---------------------------------------------------------------- every run

  /** In every run from a subscription: the cursor of an active subscriber stands at the first missing
      sequence, and the next publication, of any event in any order, terminates it if and only if the
      passing events that become due do not fit into the channel or more than `limit` later sequences
      are left waiting. */
  lemma TerminatesExactly(history: seq<Event>, keep: Filter, limit: nat, after: nat, ops: seq<Op>, e: Event, to: nat)
    requires History(history) && FromHistory(history, ops) && Publishable(history, e)
    requires ApplyAll(Subscribed(after), keep, limit, ops).active
    requires FirstMissing(after, Seen(PublishedBy(ops), e), to)
    ensures var s := ApplyAll(Subscribed(after), keep, limit, ops);
            var t := ApplyAll(Subscribed(after), keep, limit, ops + [Published(e)]);
            && FirstMissing(after, PublishedBy(ops), s.nextSeq)
            && (!t.active <==> Overflows(s, history, keep, limit, e, Seen(PublishedBy(ops), e), s.nextSeq, to))
            && (!t.active ==> t.lagged)
  {
    var s := ApplyAll(Subscribed(after), keep, limit, ops);
    DeliveryIsOrderIndependent(history, keep, limit, after, ops);
    TracksFirst(s, after, PublishedBy(ops), limit);
    assert (ops + [Published(e)])[..|ops|] == ops;
    PublishTerminates(s, history, keep, limit, after, PublishedBy(ops), e, to);
  }

  /** There is always a first missing sequence. */
  lemma SomeMissing(after: nat, published: set<nat>, n: nat) returns (to: nat)
    requires forall q :: q in published ==> q <= n
    ensures FirstMissing(after, published, to)
  {
    to := after + 1;
    while to in published
      invariant after < to && forall p :: after < p < to ==> p in published
      decreases n + 1 - to
    {
      to := to + 1;
    }
  }

  /** The `n`-th publication of the run overflowed when its turn came. */
  ghost predicate OverflowsAt(history: seq<Event>, keep: Filter, limit: nat, after: nat, ops: seq<Op>, n: nat)
    requires n < |ops| && ops[n].Published?
  {
    var s := ApplyAll(Subscribed(after), keep, limit, ops[..n]);
    var published := Seen(PublishedBy(ops[..n]), ops[n].e);
    0 < s.nextSeq && exists to :: FirstMissing(after, published, to) && Overflows(s, history, keep, limit, ops[n].e, published, s.nextSeq, to)
  }

  ghost predicate NeverOverflows(history: seq<Event>, keep: Filter, limit: nat, after: nat, ops: seq<Op>) {
    forall n :: 0 <= n < |ops| && ops[n].Published? ==> !OverflowsAt(history, keep, limit, after, ops, n)
  }

  lemma NeverSnoc(history: seq<Event>, keep: Filter, limit: nat, after: nat, ops: seq<Op>)
    requires |ops| > 0
    ensures NeverOverflows(history, keep, limit, after, ops)
       <==> NeverOverflows(history, keep, limit, after, ops[..|ops| - 1])
            && (ops[|ops| - 1].Published? ==> !OverflowsAt(history, keep, limit, after, ops, |ops| - 1))
  {
    var before := ops[..|ops| - 1];
    forall n | 0 <= n < |before| ensures before[n] == ops[n] {}
    forall n | 0 <= n < |before| && before[n].Published?
      ensures OverflowsAt(history, keep, limit, after, before, n) <==> OverflowsAt(history, keep, limit, after, ops, n)
    {
      assert before[..n] == ops[..n];
    }
  }

  lemma PublishedInHistory(history: seq<Event>, ops: seq<Op>)
    requires FromHistory(history, ops)
    ensures forall q :: q in PublishedBy(ops) ==> q <= |history|
  {
  }

  /** The last publication of a run, as the rest of the run leaves it. */
  lemma LastPublication(history: seq<Event>, keep: Filter, limit: nat, after: nat, ops: seq<Op>)
    requires History(history) && FromHistory(history, ops) && |ops| > 0 && ops[|ops| - 1].Published?
    requires ApplyAll(Subscribed(after), keep, limit, ops[..|ops| - 1]).active
    ensures ApplyAll(Subscribed(after), keep, limit, ops).active <==> !OverflowsAt(history, keep, limit, after, ops, |ops| - 1)
  {
    var before, e := ops[..|ops| - 1], ops[|ops| - 1].e;
    assert ops == before + [Published(e)];
    assert forall i :: 0 <= i < |before| ==> before[i] == ops[i];
    PublishedInHistory(history, before);
    var first := SomeMissing(after, Seen(PublishedBy(before), e), if |history| < e.seqNo then e.seqNo else |history|);
    forall to: nat | FirstMissing(after, Seen(PublishedBy(before), e), to) ensures to == first {
      FirstIsUnique(after, Seen(PublishedBy(before), e), to, first);
    }
    TerminatesExactly(history, keep, limit, after, before, e, first);
  }

  /** So a subscriber is still active, whatever the order of publications, if and only if none of them
      overflowed when its turn came: out of order alone none is lost. */
  lemma {:induction false} ActiveExactly(history: seq<Event>, keep: Filter, limit: nat, after: nat, ops: seq<Op>)
    requires History(history) && FromHistory(history, ops)
    ensures ApplyAll(Subscribed(after), keep, limit, ops).active <==> NeverOverflows(history, keep, limit, after, ops)
  {
    if |ops| > 0 {
      var before, op := ops[..|ops| - 1], ops[|ops| - 1];
      assert forall i :: 0 <= i < |before| ==> before[i] == ops[i];
      ActiveExactly(history, keep, limit, after, before);
      NeverSnoc(history, keep, limit, after, ops);
      if op.Published? && ApplyAll(Subscribed(after), keep, limit, before).active {
        LastPublication(history, keep, limit, after, ops);
      }
    }
  }

  // ---------------------------------------------------------------- unsequenced events

  /** The events without a sequence, of a channel or of a run's publications. */
  function Loose(es: seq<Event>): seq<Event> {
    if |es| == 0 then [] else Loose(es[..|es| - 1]) + (if es[|es| - 1].seqNo == 0 then [es[|es| - 1]] else [])
  }

  function LooseBy(ops: seq<Op>, keep: Filter): seq<Event> {
    if |ops| == 0 then []
    else
      var op := ops[|ops| - 1];
      LooseBy(ops[..|ops| - 1], keep) + (if op.Published? && op.e.seqNo == 0 && keep(op.e) then [op.e] else [])
  }

  lemma LooseSnoc(es: seq<Event>, e: Event)
    ensures Loose(es + [e]) == Loose(es) + (if e.seqNo == 0 then [e] else [])
  {
    assert (es + [e])[..|es|] == es;
  }

  lemma {:induction false} FlushIsSequenced(s: Sub, history: seq<Event>, keep: Filter, limit: nat)
    requires Buffers(s, history) && History(history)
    ensures Loose(Flush(s, keep, limit).sent) == Loose(s.sent)
    decreases |s.pending|
  {
    if s.nextSeq in s.pending {
      var e, rest := s.pending[s.nextSeq], s.pending - {s.nextSeq};
      if !keep(e) {
        FlushIsSequenced(s.(pending := rest, nextSeq := s.nextSeq + 1), history, keep, limit);
      } else if Room(s, limit) {
        LooseSnoc(s.sent, e);
        assert Loose(s.sent) + [] == Loose(s.sent);
        FlushIsSequenced(s.(sent := s.sent + [e], pending := rest, nextSeq := s.nextSeq + 1), history, keep, limit);
      }
    }
  }

  lemma PublishLoose(s: Sub, history: seq<Event>, keep: Filter, limit: nat, e: Event)
    requires History(history) && Buffers(s, history) && Publishable(history, e) && s.active
    ensures var t := Publish(s, keep, limit, e);
            Loose(t.sent) == Loose(s.sent) + (if t.active && e.seqNo == 0 && keep(e) then [e] else [])
  {
    LooseSnoc(s.sent, e);
    assert Loose(s.sent) + [] == Loose(s.sent);
    if e.seqNo > 0 && e.seqNo == s.nextSeq && (!keep(e) || Room(s, limit)) {
      FlushIsSequenced(s.(sent := if keep(e) then s.sent + [e] else s.sent, nextSeq := s.nextSeq + 1), history, keep, limit);
    }
  }

  /** Unsequenced events pass the cursor by: an active subscriber was sent every one that passes the
      filter, in the order of publication; a terminated one the first of them. */
  lemma {:induction false} LooseDelivered(history: seq<Event>, keep: Filter, limit: nat, after: nat, ops: seq<Op>)
    requires History(history) && FromHistory(history, ops)
    ensures var s := ApplyAll(Subscribed(after), keep, limit, ops);
            Loose(s.sent) <= LooseBy(ops, keep) && (s.active ==> Loose(s.sent) == LooseBy(ops, keep))
  {
    if |ops| > 0 {
      var before, op := ops[..|ops| - 1], ops[|ops| - 1];
      assert forall i :: 0 <= i < |before| ==> before[i] == ops[i];
      var s := ApplyAll(Subscribed(after), keep, limit, before);
      LooseDelivered(history, keep, limit, after, before);
      DeliveryIsOrderIndependent(history, keep, limit, after, before);
      if op.Published? && s.active { PublishLoose(s, history, keep, limit, op.e); }
    }
  }

  // ---------------------------------------------------------------- the handoff

  lemma ReadyToFlush(s: Sub, history: seq<Event>, limit: nat, after: nat, published: set<nat>, last: nat, to: nat)
    requires LiveOk(s, history, after, published, limit) && s.active && after <= last && FirstMissing(last, published, to)
    ensures 0 < Handed(s, last).nextSeq <= to && Buffers(Handed(s, last), history) && Fits(Handed(s, last), limit)
    ensures Tracking(Handed(s, last), last, published, limit)
  {
    var from := if last + 1 > s.nextSeq then last + 1 else s.nextSeq;
    var pending := map q | q in s.pending && q >= from :: s.pending[q];
    assert s.pending.Keys == pending.Keys + (s.pending.Keys - pending.Keys);
    assert |pending| == |pending.Keys| && |s.pending| == |s.pending.Keys|;
    assert from <= to;
  }

  function Handed(s: Sub, last: nat): Sub {
    var from := if last + 1 > s.nextSeq then last + 1 else s.nextSeq;
    s.(nextSeq := from, pending := map q | q in s.pending && q >= from :: s.pending[q])
  }

  lemma HandOffFlushes(s: Sub, keep: Filter, limit: nat, last: nat)
    requires s.active
    ensures HandOff(s, keep, limit, last) == Flush(Handed(s, last), keep, limit)
  {
  }

  /** A handoff ends a live subscriber exactly when the passing events it releases do not fit. */
  lemma HandOffTerminates(s: Sub, history: seq<Event>, keep: Filter, limit: nat, after: nat, published: set<nat>, last: nat, to: nat)
    requires History(history) && LiveOk(s, history, after, published, limit) && s.active && after <= last
    requires FirstMissing(last, published, to)
    ensures var from := if last + 1 > s.nextSeq then last + 1 else s.nextSeq;
            && 0 < from <= to
            && (HandOff(s, keep, limit, last).active <==> |Passing(history, keep, from - 1, to - 1)| <= Space(s, limit))
            && (!HandOff(s, keep, limit, last).active ==> HandOff(s, keep, limit, last).lagged)
  {
    ReadyToFlush(s, history, limit, after, published, last, to);
    HandOffFlushes(s, keep, limit, last);
    FlushTerminates(Handed(s, last), history, keep, limit, last, published, to);
  }
}
