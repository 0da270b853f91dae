/** Ordered live delivery (agent/events.go:146-424) on values: what one subscriber's live side does
    with each publication, and what a reader gets out of replay and live events together.

    The events of one session are `history`, the event of sequence q at index q - 1. */
module Delivery {
  import opened Events

  type Filter = Event -> bool

  /** The live side of one subscription. `sent` is everything ever put on its channel, of which
      the reader has taken the first `taken`. */
  datatype Sub = Sub(active: bool, lagged: bool, nextSeq: nat, pending: map<nat, Event>, sent: seq<Event>, taken: nat)

  function Subscribed(after: nat): Sub { Sub(true, false, after + 1, map[], [], 0) }

  predicate Room(s: Sub, limit: nat) { s.taken <= |s.sent| && |s.sent| - s.taken < limit }

  function Terminated(s: Sub, lagged: bool): Sub { if s.active then s.(active := false, lagged := lagged) else s }

  /** Sends buffered events from the expected sequence on, until one is missing. */
  function Flush(s: Sub, keep: Filter, limit: nat): Sub
    decreases |s.pending|
  {
    if s.nextSeq !in s.pending then s
    else
      var e := s.pending[s.nextSeq];
      var rest := s.pending - {s.nextSeq};
      if !keep(e) then Flush(s.(pending := rest, nextSeq := s.nextSeq + 1), keep, limit)
      else if !Room(s, limit) then Terminated(s, true)
      else Flush(s.(sent := s.sent + [e], pending := rest, nextSeq := s.nextSeq + 1), keep, limit)
  }

  /** One publication. Unsequenced events bypass the cursor. */
  function Publish(s: Sub, keep: Filter, limit: nat, e: Event): Sub {
    if !s.active then s
    else if e.seqNo == 0 then
      if !keep(e) then s else if !Room(s, limit) then Terminated(s, true) else s.(sent := s.sent + [e])
    else if e.seqNo < s.nextSeq then s
    else if e.seqNo > s.nextSeq then
      var pending := s.pending[e.seqNo := e];
      if |pending| > limit then Terminated(s.(pending := pending), true) else s.(pending := pending)
    else if !keep(e) then Flush(s.(nextSeq := s.nextSeq + 1), keep, limit)
    else if !Room(s, limit) then Terminated(s, true)
    else Flush(s.(sent := s.sent + [e], nextSeq := s.nextSeq + 1), keep, limit)
  }

  /** Replay up to `last` was loaded: the live side continues after it. */
  function HandOff(s: Sub, keep: Filter, limit: nat, last: nat): Sub {
    if !s.active then s
    else
      var nextSeq := if last + 1 > s.nextSeq then last + 1 else s.nextSeq;
      Flush(s.(nextSeq := nextSeq, pending := map q | q in s.pending && q >= nextSeq :: s.pending[q]), keep, limit)
  }

  // ---------------------------------------------------------------- what should arrive

  /** The events after `low` up to `high` that pass the filter, in order. */
  function Passing(history: seq<Event>, keep: Filter, low: nat, high: nat): seq<Event> {
    if high <= low then []
    else Passing(history, keep, low, high - 1)
         + (if high <= |history| && keep(history[high - 1]) then [history[high - 1]] else [])
  }

  /** The sequenced events of a channel history above a cursor. */
  function Above(es: seq<Event>, cursor: nat): seq<Event> {
    if |es| == 0 then []
    else Above(es[..|es| - 1], cursor) + (if es[|es| - 1].seqNo > cursor then [es[|es| - 1]] else [])
  }

  ghost predicate History(history: seq<Event>) { forall i :: 0 <= i < |history| ==> history[i].seqNo == i + 1 }

  lemma {:induction false} PassingSplit(history: seq<Event>, keep: Filter, low: nat, mid: nat, high: nat)
    requires low <= mid <= high
    ensures Passing(history, keep, low, high) == Passing(history, keep, low, mid) + Passing(history, keep, mid, high)
  {
    if mid < high {
      PassingSplit(history, keep, low, mid, high - 1);
    } else {
      assert Passing(history, keep, mid, high) == [];
    }
  }

  predicate Passes(history: seq<Event>, keep: Filter, low: nat, high: nat, e: Event) {
    low < e.seqNo <= high && e.seqNo <= |history| && e == history[e.seqNo - 1] && keep(e)
  }

  lemma {:induction false} PassingMember(history: seq<Event>, keep: Filter, low: nat, high: nat, e: Event)
    requires History(history)
    ensures e in Passing(history, keep, low, high) <==> Passes(history, keep, low, high, e)
  {
    if low < high {
      PassingMember(history, keep, low, high - 1, e);
      if high <= |history| && keep(history[high - 1]) {
        assert Passing(history, keep, low, high) == Passing(history, keep, low, high - 1) + [history[high - 1]];
      }
    }
  }

  lemma PassingMembers(history: seq<Event>, keep: Filter, low: nat, high: nat)
    requires History(history)
    ensures forall e :: e in Passing(history, keep, low, high) <==> Passes(history, keep, low, high, e)
  {
    forall e ensures e in Passing(history, keep, low, high) <==> Passes(history, keep, low, high, e) {
      PassingMember(history, keep, low, high, e);
    }
  }

  lemma {:induction false} AboveConcat(a: seq<Event>, b: seq<Event>, cursor: nat)
    ensures Above(a + b, cursor) == Above(a, cursor) + Above(b, cursor)
  {
    if |b| == 0 {
      assert a + b == a;
    } else {
      var last := b[|b| - 1];
      AboveConcat(a, b[..|b| - 1], cursor);
      assert (a + b)[..|a + b| - 1] == a + b[..|b| - 1];
    }
  }

  lemma {:induction false} AboveAll(es: seq<Event>, cursor: nat)
    requires forall e :: e in es ==> e.seqNo > cursor
    ensures Above(es, cursor) == es
  {
    if |es| > 0 {
      assert es == es[..|es| - 1] + [es[|es| - 1]];
      AboveAll(es[..|es| - 1], cursor);
    }
  }

  lemma {:induction false} AboveNone(es: seq<Event>, cursor: nat)
    requires forall e :: e in es ==> e.seqNo <= cursor
    ensures Above(es, cursor) == []
  {
    if |es| > 0 {
      assert es == es[..|es| - 1] + [es[|es| - 1]];
      AboveNone(es[..|es| - 1], cursor);
    }
  }

  lemma {:induction false} AboveTwice(es: seq<Event>, low: nat, high: nat)
    requires low <= high
    ensures Above(Above(es, low), high) == Above(es, high)
  {
    if |es| > 0 {
      var init, last := es[..|es| - 1], es[|es| - 1];
      AboveTwice(init, low, high);
      AboveConcat(Above(init, low), if last.seqNo > low then [last] else [], high);
      assert [last][..0] == [];
    }
  }

  /** A list of passing events above a cursor is the list from that cursor. */
  lemma {:induction false} AbovePassing(history: seq<Event>, keep: Filter, low: nat, high: nat, cursor: nat)
    requires History(history) && low <= cursor
    ensures Above(Passing(history, keep, low, high), cursor) == Passing(history, keep, cursor, high)
  {
    PassingMembers(history, keep, low, high);
    if high <= cursor {
      AboveNone(Passing(history, keep, low, high), cursor);
    } else {
      PassingMembers(history, keep, low, cursor);
      PassingMembers(history, keep, cursor, high);
      PassingSplit(history, keep, low, cursor, high);
      AboveConcat(Passing(history, keep, low, cursor), Passing(history, keep, cursor, high), cursor);
      AboveNone(Passing(history, keep, low, cursor), cursor);
      AboveAll(Passing(history, keep, cursor, high), cursor);
    }
  }

  // ---------------------------------------------------------------- the live side

  /** Buffered events are the history's own. */
  ghost predicate Buffers(s: Sub, history: seq<Event>) {
    forall q :: q in s.pending ==> 0 < q <= |history| && s.pending[q] == history[q - 1]
  }

  /** What an active live side knows: everything from `low` to its cursor was published, the next
      sequence was not, and exactly the published later ones are buffered, within the limit. */
  ghost predicate Tracks(s: Sub, low: nat, published: set<nat>, limit: nat) {
    && low < s.nextSeq
    && (forall q :: low < q < s.nextSeq ==> q in published)
    && s.nextSeq !in published
    && (forall q :: q in s.pending <==> q in published && q > s.nextSeq)
    && |s.pending| <= limit
  }

  ghost predicate LiveOk(s: Sub, history: seq<Event>, low: nat, published: set<nat>, limit: nat) {
    && Buffers(s, history) && Fits(s, limit)
    && (s.active ==> Tracks(s, low, published, limit))
  }

  /** From one state to a later one, the channel gained exactly the passing events the cursor
      passed, besides unsequenced ones. */
  ghost predicate Grows(s: Sub, after: Sub, history: seq<Event>, keep: Filter) {
    && s.sent <= after.sent && after.taken == s.taken && s.nextSeq <= after.nextSeq
    && (after.active ==> s.active)
    && 0 < s.nextSeq
    && Above(after.sent[|s.sent|..], 0) == Passing(history, keep, s.nextSeq - 1, after.nextSeq - 1)
  }

  lemma GrowsTrans(a: Sub, b: Sub, c: Sub, history: seq<Event>, keep: Filter)
    requires Grows(a, b, history, keep) && Grows(b, c, history, keep)
    ensures Grows(a, c, history, keep)
  {
    assert c.sent[|a.sent|..] == b.sent[|a.sent|..] + c.sent[|b.sent|..];
    AboveConcat(b.sent[|a.sent|..], c.sent[|b.sent|..], 0);
    PassingSplit(history, keep, a.nextSeq - 1, b.nextSeq - 1, c.nextSeq - 1);
  }

  /** One step of the cursor over an event that is sent, or filtered out. */
  lemma CursorStep(s: Sub, history: seq<Event>, keep: Filter, pending: map<nat, Event>, e: Event)
    requires History(history) && 0 < s.nextSeq <= |history| && e == history[s.nextSeq - 1]
    ensures keep(e) ==> Grows(s, s.(sent := s.sent + [e], pending := pending, nextSeq := s.nextSeq + 1), history, keep)
    ensures !keep(e) ==> Grows(s, s.(pending := pending, nextSeq := s.nextSeq + 1), history, keep)
  {
    var sent := s.sent + [e];
    assert sent[|s.sent|..] == [e] && s.sent[|s.sent|..] == [];
    assert [e][..0] == [];
    assert Passing(history, keep, s.nextSeq - 1, s.nextSeq - 1) == [];
    assert Passing(history, keep, s.nextSeq - 1, s.nextSeq) == if keep(e) then [e] else [];
  }

  lemma Stays(s: Sub, after: Sub, history: seq<Event>, keep: Filter)
    requires 0 < s.nextSeq == after.nextSeq && after.sent == s.sent && after.taken == s.taken && (after.active ==> s.active)
    ensures Grows(s, after, history, keep)
  {
    assert after.sent[|s.sent|..] == [];
  }

  /** Flushing sends what it passes, in order. */
  lemma {:induction false} FlushGrows(s: Sub, history: seq<Event>, keep: Filter, limit: nat)
    requires History(history) && Buffers(s, history) && 0 < s.nextSeq
    ensures Grows(s, Flush(s, keep, limit), history, keep) && Buffers(Flush(s, keep, limit), history)
    decreases |s.pending|
  {
    if s.nextSeq in s.pending {
      var e := s.pending[s.nextSeq];
      var rest := s.pending - {s.nextSeq};
      CursorStep(s, history, keep, rest, e);
      if !keep(e) {
        var next := s.(pending := rest, nextSeq := s.nextSeq + 1);
        FlushGrows(next, history, keep, limit);
        GrowsTrans(s, next, Flush(next, keep, limit), history, keep);
      } else if !Room(s, limit) {
        Stays(s, Terminated(s, true), history, keep);
      } else {
        var next := s.(sent := s.sent + [e], pending := rest, nextSeq := s.nextSeq + 1);
        FlushGrows(next, history, keep, limit);
        GrowsTrans(s, next, Flush(next, keep, limit), history, keep);
      }
    } else {
      Stays(s, s, history, keep);
    }
  }

  /** Before a flush the expected sequence itself may be buffered. */
  ghost predicate Tracking(s: Sub, low: nat, published: set<nat>, limit: nat) {
    && low < s.nextSeq
    && (forall q :: low < q < s.nextSeq ==> q in published)
    && (forall q :: q in s.pending <==> q in published && q >= s.nextSeq)
    && |s.pending| <= limit
  }

  lemma TrackingStep(s: Sub, low: nat, published: set<nat>, limit: nat, sent: seq<Event>)
    requires Tracking(s, low, published, limit) && s.nextSeq in s.pending
    ensures Tracking(s.(sent := sent, pending := s.pending - {s.nextSeq}, nextSeq := s.nextSeq + 1), low, published, limit)
  {
    assert (s.pending - {s.nextSeq}).Keys == s.pending.Keys - {s.nextSeq};
  }

  ghost predicate Fits(s: Sub, limit: nat) { s.taken <= |s.sent| && |s.sent| - s.taken <= limit }

  /** Flushing stops at the first sequence not published. */
  lemma {:induction false} FlushTracks(s: Sub, keep: Filter, limit: nat, low: nat, published: set<nat>)
    requires Tracking(s, low, published, limit) && Fits(s, limit)
    ensures Flush(s, keep, limit).active ==> Tracks(Flush(s, keep, limit), low, published, limit)
    ensures Fits(Flush(s, keep, limit), limit)
    decreases |s.pending|
  {
    if s.nextSeq in s.pending {
      var rest := s.pending - {s.nextSeq};
      if !keep(s.pending[s.nextSeq]) {
        TrackingStep(s, low, published, limit, s.sent);
        FlushTracks(s.(pending := rest, nextSeq := s.nextSeq + 1), keep, limit, low, published);
      } else if Room(s, limit) {
        var sent := s.sent + [s.pending[s.nextSeq]];
        TrackingStep(s, low, published, limit, sent);
        FlushTracks(s.(sent := sent, pending := rest, nextSeq := s.nextSeq + 1), keep, limit, low, published);
      }
    }
  }

  function Seen(published: set<nat>, e: Event): set<nat> { if e.seqNo == 0 then published else published + {e.seqNo} }

  /** A publication is an event of the history, or unsequenced. */
  ghost predicate Publishable(history: seq<Event>, e: Event) {
    e.seqNo == 0 || (e.seqNo <= |history| && e == history[e.seqNo - 1])
  }

  lemma LooseGrows(s: Sub, history: seq<Event>, keep: Filter, e: Event)
    requires e.seqNo == 0 && 0 < s.nextSeq
    ensures Grows(s, s.(sent := s.sent + [e]), history, keep)
  {
    assert (s.sent + [e])[|s.sent|..] == [e];
    assert [e][..0] == [];
  }

  lemma PublishGrows(s: Sub, history: seq<Event>, keep: Filter, limit: nat, e: Event)
    requires History(history) && Buffers(s, history) && 0 < s.nextSeq && Publishable(history, e)
    ensures Grows(s, Publish(s, keep, limit, e), history, keep) && Buffers(Publish(s, keep, limit, e), history)
  {
    if !s.active || (0 < e.seqNo && e.seqNo != s.nextSeq) || (keep(e) && !Room(s, limit)) || (e.seqNo == 0 && !keep(e)) {
      Stays(s, Publish(s, keep, limit, e), history, keep);
    } else if e.seqNo == 0 {
      LooseGrows(s, history, keep, e);
    } else {
      CursorStep(s, history, keep, s.pending, e);
      var next := if keep(e) then s.(sent := s.sent + [e], nextSeq := s.nextSeq + 1) else s.(nextSeq := s.nextSeq + 1);
      FlushGrows(next, history, keep, limit);
      GrowsTrans(s, next, Flush(next, keep, limit), history, keep);
    }
  }

  /** An event ahead of the cursor is buffered. */
  lemma BufferTracks(s: Sub, e: Event, low: nat, published: set<nat>, limit: nat)
    requires Tracks(s, low, published, limit) && e.seqNo > s.nextSeq && |s.pending[e.seqNo := e]| <= limit
    ensures Tracks(s.(pending := s.pending[e.seqNo := e]), low, Seen(published, e), limit)
  {
  }

  /** An event behind the cursor, or without a sequence, is no news. */
  lemma StaleTracks(s: Sub, e: Event, low: nat, published: set<nat>, limit: nat, sent: seq<Event>)
    requires Tracks(s, low, published, limit) && e.seqNo < s.nextSeq
    ensures Tracks(s.(sent := sent), low, Seen(published, e), limit)
  {
  }

  lemma NextTracks(s: Sub, e: Event, low: nat, published: set<nat>, limit: nat, sent: seq<Event>)
    requires Tracks(s, low, published, limit) && e.seqNo == s.nextSeq && e.seqNo > 0
    ensures Tracking(s.(sent := sent, nextSeq := s.nextSeq + 1), low, Seen(published, e), limit)
  {
  }

  lemma PublishTracks(s: Sub, keep: Filter, limit: nat, e: Event, low: nat, published: set<nat>)
    requires Fits(s, limit) && (s.active ==> Tracks(s, low, published, limit))
    ensures Publish(s, keep, limit, e).active ==> Tracks(Publish(s, keep, limit, e), low, Seen(published, e), limit)
    ensures Fits(Publish(s, keep, limit, e), limit)
  {
    if s.active {
      if e.seqNo < s.nextSeq {
        StaleTracks(s, e, low, published, limit, s.sent);
        StaleTracks(s, e, low, published, limit, s.sent + [e]);
      } else if e.seqNo > s.nextSeq {
        if |s.pending[e.seqNo := e]| <= limit { BufferTracks(s, e, low, published, limit); }
      } else if !keep(e) || Room(s, limit) {
        CurrentTracks(s, keep, limit, e, low, published);
      }
    }
  }

  lemma CurrentTracks(s: Sub, keep: Filter, limit: nat, e: Event, low: nat, published: set<nat>)
    requires Fits(s, limit) && s.active && Tracks(s, low, published, limit) && e.seqNo == s.nextSeq && (!keep(e) || Room(s, limit))
    ensures Publish(s, keep, limit, e).active ==> Tracks(Publish(s, keep, limit, e), low, Seen(published, e), limit)
    ensures Fits(Publish(s, keep, limit, e), limit)
  {
    var sent := if keep(e) then s.sent + [e] else s.sent;
    NextTracks(s, e, low, published, limit, sent);
    FlushTracks(s.(sent := sent, nextSeq := s.nextSeq + 1), keep, limit, low, Seen(published, e));
  }

  // ---------------------------------------------------------------- any order of publications

  datatype Op = Published(e: Event) | Received

  function Apply(s: Sub, keep: Filter, limit: nat, op: Op): Sub {
    match op
    case Published(e) => Publish(s, keep, limit, e)
    case Received => if s.taken < |s.sent| then s.(taken := s.taken + 1) else s
  }

  function ApplyAll(s: Sub, keep: Filter, limit: nat, ops: seq<Op>): Sub {
    if |ops| == 0 then s else Apply(ApplyAll(s, keep, limit, ops[..|ops| - 1]), keep, limit, ops[|ops| - 1])
  }

  function PublishedBy(ops: seq<Op>): set<nat> {
    set i | 0 <= i < |ops| && ops[i].Published? && ops[i].e.seqNo > 0 :: ops[i].e.seqNo
  }

  ghost predicate FromHistory(history: seq<Event>, ops: seq<Op>) {
    forall i :: 0 <= i < |ops| && ops[i].Published? ==> Publishable(history, ops[i].e)
  }

  lemma PublishedSnoc(ops: seq<Op>)
    requires |ops| > 0
    ensures PublishedBy(ops) == match ops[|ops| - 1]
                                case Published(e) => Seen(PublishedBy(ops[..|ops| - 1]), e)
                                case Received => PublishedBy(ops[..|ops| - 1])
  {
    var before := ops[..|ops| - 1];
    assert forall i :: 0 <= i < |before| ==> before[i] == ops[i];
  }

  /** One subscription started at `after`: it was sent what its cursor passed. */
  ghost predicate Delivered(s: Sub, history: seq<Event>, keep: Filter, after: nat) {
    after < s.nextSeq && Above(s.sent, 0) == Passing(history, keep, after, s.nextSeq - 1)
  }

  lemma GrowsDelivers(s: Sub, t: Sub, history: seq<Event>, keep: Filter, after: nat)
    requires Delivered(s, history, keep, after) && Grows(s, t, history, keep)
    ensures Delivered(t, history, keep, after)
  {
    assert t.sent == s.sent + t.sent[|s.sent|..];
    AboveConcat(s.sent, t.sent[|s.sent|..], 0);
    PassingSplit(history, keep, after, s.nextSeq - 1, t.nextSeq - 1);
  }

  lemma PublishKeeps(s: Sub, history: seq<Event>, keep: Filter, limit: nat, after: nat, published: set<nat>, e: Event)
    requires History(history) && Publishable(history, e)
    requires LiveOk(s, history, after, published, limit) && Delivered(s, history, keep, after)
    ensures LiveOk(Publish(s, keep, limit, e), history, after, Seen(published, e), limit)
    ensures Delivered(Publish(s, keep, limit, e), history, keep, after)
  {
    PublishGrows(s, history, keep, limit, e);
    PublishTracks(s, keep, limit, e, after, published);
    GrowsDelivers(s, Publish(s, keep, limit, e), history, keep, after);
  }

  /** Whatever the order in which a session's committed events are published, repeated or mixed
      with unsequenced ones, and whatever the reader takes meanwhile: the subscriber has been sent
      exactly the passing events from its start up to its cursor, in order, once each. While it is
      active the cursor stands at the first sequence not yet published and the buffer within its
      limit; a lagged subscriber was sent a gap-free prefix. */
  lemma {:induction false} DeliveryIsOrderIndependent(history: seq<Event>, keep: Filter, limit: nat, after: nat,
        ops: seq<Op>)
    requires History(history) && FromHistory(history, ops)
    ensures LiveOk(ApplyAll(Subscribed(after), keep, limit, ops), history, after, PublishedBy(ops), limit)
    ensures Delivered(ApplyAll(Subscribed(after), keep, limit, ops), history, keep, after)
  {
    if |ops| > 0 {
      var before, op := ops[..|ops| - 1], ops[|ops| - 1];
      assert forall i :: 0 <= i < |before| ==> before[i] == ops[i];
      DeliveryIsOrderIndependent(history, keep, limit, after, before);
      PublishedSnoc(ops);
      ApplyKeeps(ApplyAll(Subscribed(after), keep, limit, before), history, keep, limit, after, PublishedBy(before), op);
    }
  }

  lemma ApplyKeeps(s: Sub, history: seq<Event>, keep: Filter, limit: nat, after: nat, published: set<nat>, op: Op)
    requires History(history) && (op.Published? ==> Publishable(history, op.e))
    requires LiveOk(s, history, after, published, limit) && Delivered(s, history, keep, after)
    ensures LiveOk(Apply(s, keep, limit, op), history, after, if op.Published? then Seen(published, op.e) else published, limit)
    ensures Delivered(Apply(s, keep, limit, op), history, keep, after)
  {
    if op.Published? { PublishKeeps(s, history, keep, limit, after, published, op.e); }
  }

  lemma TracksAgree(s: Sub, t: Sub, history: seq<Event>, low: nat, published: set<nat>, limit: nat)
    requires Tracks(s, low, published, limit) && Tracks(t, low, published, limit)
    requires Buffers(s, history) && Buffers(t, history)
    ensures s.nextSeq == t.nextSeq && s.pending == t.pending
  {
    assert !(s.nextSeq < t.nextSeq) && !(t.nextSeq < s.nextSeq);
    assert forall q :: q in s.pending <==> q in t.pending;
  }

  /** Two orders of the same publications leave active subscribers in the same place, having been
      sent the same sequenced events. */
  lemma SameEventsSameDelivery(history: seq<Event>, keep: Filter, limit: nat, after: nat, ops: seq<Op>,
        ops': seq<Op>, s: Sub, t: Sub)
    requires History(history) && FromHistory(history, ops) && FromHistory(history, ops') && PublishedBy(ops) == PublishedBy(ops')
    requires s == ApplyAll(Subscribed(after), keep, limit, ops) && s.active
    requires t == ApplyAll(Subscribed(after), keep, limit, ops') && t.active
    ensures s.nextSeq == t.nextSeq && s.pending == t.pending && Above(s.sent, 0) == Above(t.sent, 0)
  {
    DeliveryIsOrderIndependent(history, keep, limit, after, ops);
    DeliveryIsOrderIndependent(history, keep, limit, after, ops');
    DeliveredAgree(s, t, history, keep, limit, after, PublishedBy(ops));
  }

  lemma DeliveredAgree(s: Sub, t: Sub, history: seq<Event>, keep: Filter, limit: nat, after: nat, published: set<nat>)
    requires LiveOk(s, history, after, published, limit) && LiveOk(t, history, after, published, limit) && s.active && t.active
    requires Delivered(s, history, keep, after) && Delivered(t, history, keep, after)
    ensures s.nextSeq == t.nextSeq && s.pending == t.pending && Above(s.sent, 0) == Above(t.sent, 0)
  {
    TracksAgree(s, t, history, after, published, limit);
  }
}
