/** The replay/live handoff (agent/events.go:203-339): a reader first walks the replayed backlog,
    then the live channel, skipping what it already delivered. */
module Replay {
  import opened Events
  import opened Delivery

  /** One subscription as its reader sees it; `out` is everything `Next` has returned. */
  datatype Reader = Reader(sub: Sub, backlog: seq<Event>, index: nat, delivered: nat, acked: nat, out: seq<Event>)

  datatype Answer = Got(e: Event) | Lagged | Closed | Waiting

  /** What `SubscribeCursor` returns: the live side was registered at `after` and has seen some
      publications; the store was then loaded up to `last`. */
  function Opened(live: Sub, history: seq<Event>, keep: Filter, limit: nat, after: nat, last: nat): Reader {
    var to := if last > after then last else after;
    Reader(HandOff(live, keep, limit, to), Passing(history, keep, after, to), 0, after, after, [])
  }

  /** Skips backlog and channel entries at or below the delivered cursor; returns the first above. */
  function Next(r: Reader): (Reader, Answer)
    decreases |r.backlog| - r.index, |r.sub.sent| - r.sub.taken
  {
    if r.index < |r.backlog| then
      var e := r.backlog[r.index];
      var moved := r.(index := r.index + 1);
      if e.seqNo <= r.delivered then Next(moved)
      else (moved.(delivered := e.seqNo, out := r.out + [e]), Got(e))
    else if r.sub.taken < |r.sub.sent| then
      var e := r.sub.sent[r.sub.taken];
      var moved := r.(sub := r.sub.(taken := r.sub.taken + 1));
      if e.seqNo <= r.delivered then Next(moved)
      else (moved.(delivered := e.seqNo, out := r.out + [e]), Got(e))
    else (r, if r.sub.active then Waiting else if r.sub.lagged then Lagged else Closed)
  }

  /** What the reader has not looked at yet. */
  function Unread(r: Reader): seq<Event>
    requires r.index <= |r.backlog| && r.sub.taken <= |r.sub.sent|
  {
    r.backlog[r.index..] + r.sub.sent[r.sub.taken..]
  }

  ghost predicate FirstNews(es: seq<Event>, cursor: nat, i: nat) {
    i < |es| && es[i].seqNo > cursor && forall j :: 0 <= j < i ==> es[j].seqNo <= cursor
  }

  lemma NewsAfter(es: seq<Event>, rest: seq<Event>, cursor: nat, i: nat)
    requires |es| > 0 && rest == es[1..] && es[0].seqNo <= cursor
    ensures (i > 0 ==> (FirstNews(es, cursor, i) <==> FirstNews(rest, cursor, i - 1))) && !FirstNews(es, cursor, 0)
  {
    if i > 0 && FirstNews(rest, cursor, i - 1) {
      forall j | 0 <= j < i ensures es[j].seqNo <= cursor { if j > 0 { assert rest[j - 1] == es[j]; } }
    }
  }

  /** The first unread event above the cursor is returned and the cursor moves there; without one
      everything is read, and the answer says whether more may come or how the subscription ended. */
  ghost predicate AnswersFor(r: Reader, after: Reader, answer: Answer)
    requires r.index <= |r.backlog| && r.sub.taken <= |r.sub.sent|
  {
    && (forall i: nat :: FirstNews(Unread(r), r.delivered, i) ==>
          answer == Got(Unread(r)[i]) && after.delivered == Unread(r)[i].seqNo && after.out == r.out + [Unread(r)[i]])
    && ((forall e :: e in Unread(r) ==> e.seqNo <= r.delivered) ==>
          answer == (if r.sub.active then Waiting else if r.sub.lagged then Lagged else Closed)
          && after.out == r.out && after.delivered == r.delivered && after.index == |r.backlog| && after.sub.taken == |r.sub.sent|)
  }

  /** An event at or below the cursor is passed over. */
  lemma PassedOver(r: Reader, moved: Reader, after: Reader, answer: Answer)
    requires r.index <= |r.backlog| && r.sub.taken <= |r.sub.sent| && moved.index <= |moved.backlog| && moved.sub.taken <= |moved.sub.sent|
    requires Unread(r) != [] && Unread(r)[0].seqNo <= r.delivered && Unread(r)[1..] == Unread(moved)
    requires moved == r.(index := moved.index, sub := r.sub.(taken := moved.sub.taken)) && AnswersFor(moved, after, answer)
    ensures AnswersFor(r, after, answer)
  {
    forall i: nat | FirstNews(Unread(r), r.delivered, i) ensures i > 0 && FirstNews(Unread(moved), r.delivered, i - 1) {
      NewsAfter(Unread(r), Unread(moved), r.delivered, i);
    }
    assert forall x :: x in Unread(moved) ==> x in Unread(r);
  }

  lemma TakenFirst(r: Reader, after: Reader, e: Event)
    requires r.index <= |r.backlog| && r.sub.taken <= |r.sub.sent| && Unread(r) != [] && e == Unread(r)[0] && e.seqNo > r.delivered
    requires after.delivered == e.seqNo && after.out == r.out + [e]
    ensures AnswersFor(r, after, Got(e))
  {
    forall i: nat | FirstNews(Unread(r), r.delivered, i) ensures i == 0 {}
    assert e in Unread(r);
  }

  /** So does every `Next`. */
  lemma {:induction false} NextExactly(r: Reader)
    requires r.index <= |r.backlog| && r.sub.taken <= |r.sub.sent|
    ensures AnswersFor(r, Next(r).0, Next(r).1)
    decreases |r.backlog| - r.index, |r.sub.sent| - r.sub.taken
  {
    if r.index < |r.backlog| || r.sub.taken < |r.sub.sent| {
      var moved := if r.index < |r.backlog| then r.(index := r.index + 1) else r.(sub := r.sub.(taken := r.sub.taken + 1));
      var e := if r.index < |r.backlog| then r.backlog[r.index] else r.sub.sent[r.sub.taken];
      assert Unread(r)[0] == e && Unread(r)[1..] == Unread(moved);
      if e.seqNo <= r.delivered {
        NextExactly(moved);
        PassedOver(r, moved, Next(r).0, Next(r).1);
      } else {
        TakenFirst(r, Next(r).0, e);
      }
    } else {
      assert Unread(r) == [];
    }
  }

  /** The reconnect cursor: never beyond what was delivered, never backwards. */
  function Acknowledge(r: Reader, seqNo: nat): Reader {
    var capped := if seqNo > r.delivered then r.delivered else seqNo;
    if capped > r.acked then r.(acked := capped) else r
  }

  function Max(a: nat, b: nat): nat { if a < b then b else a }

  /** Acknowledging moves the reconnect cursor to the acknowledged sequence, but never backwards and
      never past what was delivered; nothing else changes. */
  lemma AcknowledgeMeans(r: Reader, seqNo: nat)
    requires r.acked <= r.delivered
    ensures r.acked <= Acknowledge(r, seqNo).acked <= r.delivered && Acknowledge(r, seqNo) == r.(acked := Acknowledge(r, seqNo).acked)
    ensures seqNo <= r.delivered ==> Acknowledge(r, seqNo).acked == Max(r.acked, seqNo)
    ensures seqNo > r.delivered ==> Acknowledge(r, seqNo).acked == r.delivered
  {
  }

  /** So acknowledgments may arrive repeated and in any order. */
  lemma AcknowledgmentsCommute(r: Reader, a: nat, b: nat)
    requires r.acked <= r.delivered
    ensures Acknowledge(Acknowledge(r, a), b) == Acknowledge(Acknowledge(r, b), a) == Acknowledge(r, Max(a, b))
  {
    AcknowledgeMeans(r, a);
    AcknowledgeMeans(r, b);
    AcknowledgeMeans(Acknowledge(r, a), b);
    AcknowledgeMeans(Acknowledge(r, b), a);
  }

  // ---------------------------------------------------------------- the reader's invariant

  function LastSeq(es: seq<Event>, cursor: nat): nat { if |es| == 0 then cursor else es[|es| - 1].seqNo }

  /** Where the delivered cursor stands once the backlog is used up. */
  function Edge(r: Reader): nat { if r.index < |r.backlog| then LastSeq(r.backlog, r.delivered) else r.delivered }

  /** So far a gap-free prefix was returned. */
  ghost predicate SoFar(r: Reader, history: seq<Event>, keep: Filter, after: nat, to: nat) {
    && after <= to && after <= r.acked <= r.delivered
    && r.index <= |r.backlog| && r.backlog == Passing(history, keep, after, to)
    && r.out == Passing(history, keep, after, r.delivered)
    && (r.index < |r.backlog| ==> r.out == r.backlog[..r.index] && r.delivered == LastSeq(r.out, after))
    && (r.index == |r.backlog| ==> Passing(history, keep, r.delivered, to) == [])
  }

  /** Still to come, beyond the backlog, is what the channel holds. */
  ghost predicate ToCome(s: Sub, history: seq<Event>, keep: Filter, edge: nat, to: nat) {
    && s.taken <= |s.sent| && 0 < s.nextSeq
    && Above(s.sent[s.taken..], edge) == Passing(history, keep, edge, s.nextSeq - 1)
    && (s.active ==> edge < s.nextSeq && to < s.nextSeq)
  }

  ghost predicate ReaderOk(r: Reader, history: seq<Event>, keep: Filter, after: nat, to: nat) {
    SoFar(r, history, keep, after, to) && ToCome(r.sub, history, keep, Edge(r), to)
  }

  /** In a list of passing events, everything up to the i-th is the list up to its sequence. */
  lemma {:induction false} PassingPrefix(history: seq<Event>, keep: Filter, low: nat, high: nat, i: nat)
    requires History(history) && i < |Passing(history, keep, low, high)|
    ensures var s := Passing(history, keep, low, high);
            low < s[i].seqNo <= high && Passing(history, keep, low, s[i].seqNo) == s[..i + 1]
  {
    var s := Passing(history, keep, low, high);
    var before := Passing(history, keep, low, high - 1);
    if i < |before| {
      PassingPrefix(history, keep, low, high - 1, i);
      assert s[..i + 1] == before[..i + 1];
    } else {
      assert s == before + [history[high - 1]] && i == |before|;
      assert s[..i + 1] == s;
    }
  }

  /** Nothing passes after the last passing event. */
  lemma PassingTail(history: seq<Event>, keep: Filter, low: nat, high: nat)
    requires History(history) && low <= high
    ensures var last := LastSeq(Passing(history, keep, low, high), low);
            low <= last <= high && Passing(history, keep, last, high) == []
  {
    var s := Passing(history, keep, low, high);
    if |s| > 0 {
      PassingPrefix(history, keep, low, high, |s| - 1);
      assert s[..|s|] == s;
      PassingSplit(history, keep, low, s[|s| - 1].seqNo, high);
    }
  }

  /** The first of the events that follow a cursor. */
  lemma PassingHead(history: seq<Event>, keep: Filter, low: nat, high: nat)
    requires History(history) && Passing(history, keep, low, high) != []
    ensures var s := Passing(history, keep, low, high);
            low < s[0].seqNo <= high && Passing(history, keep, low, s[0].seqNo) == [s[0]]
            && Passing(history, keep, s[0].seqNo, high) == s[1..]
  {
    var s := Passing(history, keep, low, high);
    PassingPrefix(history, keep, low, high, 0);
    PassingSplit(history, keep, low, s[0].seqNo, high);
  }

  lemma AboveHead(es: seq<Event>, cursor: nat)
    requires |es| > 0
    ensures Above(es, cursor) == (if es[0].seqNo > cursor then [es[0]] else []) + Above(es[1..], cursor)
  {
    assert es == [es[0]] + es[1..];
    AboveConcat([es[0]], es[1..], cursor);
    assert [es[0]][..0] == [];
  }

  // ---------------------------------------------------------------- opening

  /** Where the live side continues after a handoff. */
  function Resumption(live: Sub, to: nat): nat { if live.active && to + 1 > live.nextSeq then to + 1 else live.nextSeq }

  function Ready(live: Sub, to: nat): Sub {
    var from := Resumption(live, to);
    live.(nextSeq := from, pending := map q | q in live.pending && q >= from :: live.pending[q])
  }

  lemma PendingShrinks(before: map<nat, Event>, after: map<nat, Event>)
    requires after.Keys <= before.Keys
    ensures |after| <= |before|
  {
    assert |before.Keys| == |after.Keys| + |before.Keys - after.Keys| by {
      assert before.Keys == after.Keys + (before.Keys - after.Keys);
    }
  }

  lemma ReadyTracks(live: Sub, history: seq<Event>, limit: nat, after: nat, to: nat, published: set<nat>)
    requires after <= to && live.active && LiveOk(live, history, after, published, limit)
    ensures Tracking(Ready(live, to), to, published, limit) && Buffers(Ready(live, to), history)
  {
    PendingShrinks(live.pending, Ready(live, to).pending);
  }

  /** A handoff keeps what was sent and continues after the replay. */
  lemma HandOffKeeps(live: Sub, history: seq<Event>, keep: Filter, limit: nat, after: nat, to: nat, published: set<nat>)
    requires History(history) && after <= to && 0 < live.nextSeq
    requires LiveOk(live, history, after, published, limit)
    ensures LiveOk(HandOff(live, keep, limit, to), history, to, published, limit)
    ensures live.active ==> Grows(Ready(live, to), HandOff(live, keep, limit, to), history, keep)
    ensures !live.active ==> HandOff(live, keep, limit, to) == live
  {
    if live.active {
      ReadyTracks(live, history, limit, after, to, published);
      FlushTracks(Ready(live, to), keep, limit, to, published);
      FlushGrows(Ready(live, to), history, keep, limit);
    }
  }

  lemma SentAbove(live: Sub, history: seq<Event>, keep: Filter, after: nat, edge: nat)
    requires History(history) && Delivered(live, history, keep, after) && after <= edge
    ensures Above(live.sent, edge) == Passing(history, keep, edge, live.nextSeq - 1)
  {
    AboveTwice(live.sent, 0, edge);
    AbovePassing(history, keep, after, live.nextSeq - 1, edge);
  }

  lemma {:induction false} EmptyPrefix(history: seq<Event>, keep: Filter, low: nat, mid: nat, high: nat)
    requires low <= high && Passing(history, keep, low, high) == [] && mid <= high
    ensures Passing(history, keep, low, mid) == []
  {
    if low < mid { PassingSplit(history, keep, low, mid, high); }
  }

  /** What a channel gains lies above every cursor the live side had passed. */
  lemma GainedAbove(s: Sub, t: Sub, history: seq<Event>, keep: Filter, edge: nat)
    requires History(history) && Grows(s, t, history, keep) && edge < s.nextSeq
    ensures Above(t.sent[|s.sent|..], edge) == Passing(history, keep, s.nextSeq - 1, t.nextSeq - 1)
  {
    AboveTwice(t.sent[|s.sent|..], 0, edge);
    PassingMembers(history, keep, s.nextSeq - 1, t.nextSeq - 1);
    AboveAll(Passing(history, keep, s.nextSeq - 1, t.nextSeq - 1), edge);
  }

  /** What lies between a cursor and the live cursor before a handoff. */
  lemma HandedOver(live: Sub, history: seq<Event>, keep: Filter, to: nat, edge: nat, high: nat)
    requires live.active && 0 < live.nextSeq && edge <= to && Passing(history, keep, edge, to) == []
    requires Resumption(live, to) - 1 <= high
    ensures Passing(history, keep, edge, live.nextSeq - 1) + Passing(history, keep, Resumption(live, to) - 1, high)
         == Passing(history, keep, edge, high)
  {
    if to + 1 > live.nextSeq { EmptyPrefix(history, keep, edge, live.nextSeq - 1, to); }
    PassingSplit(history, keep, edge, Resumption(live, to) - 1, high);
  }

  /** What the channel holds at the handoff is what follows the backlog. */
  lemma ChannelFollows(live: Sub, sent: seq<Event>, nextSeq: nat, history: seq<Event>, keep: Filter, after: nat,
        to: nat, edge: nat)
    requires History(history) && Delivered(live, history, keep, after) && live.active && 0 < nextSeq
    requires after <= edge <= to && Passing(history, keep, edge, to) == []
    requires live.sent <= sent && Resumption(live, to) <= nextSeq
    requires Above(sent[|live.sent|..], edge) == Passing(history, keep, Resumption(live, to) - 1, nextSeq - 1)
    ensures Above(sent, edge) == Passing(history, keep, edge, nextSeq - 1)
  {
    var x := sent[|live.sent|..];
    SentAbove(live, history, keep, after, edge);
    HandedOver(live, history, keep, to, edge, nextSeq - 1);
    assert sent == live.sent + x;
    AboveConcat(live.sent, x, edge);
  }

  lemma OpenedSoFar(s: Sub, history: seq<Event>, keep: Filter, after: nat, to: nat)
    requires History(history) && after <= to
    ensures var backlog := Passing(history, keep, after, to);
            var r := Reader(s, backlog, 0, after, after, []);
            SoFar(r, history, keep, after, to) && Edge(r) == LastSeq(backlog, after)
  {
    PassingTail(history, keep, after, to);
    assert Passing(history, keep, after, after) == [] && Passing(history, keep, after, to)[..0] == [];
  }

  lemma OpenedToCome(live: Sub, history: seq<Event>, keep: Filter, limit: nat, after: nat, to: nat,
        published: set<nat>, edge: nat)
    requires History(history) && live.taken == 0 && after <= edge <= to && Passing(history, keep, edge, to) == []
    requires LiveOk(live, history, after, published, limit) && Delivered(live, history, keep, after)
    ensures ToCome(HandOff(live, keep, limit, to), history, keep, edge, to)
    ensures LiveOk(HandOff(live, keep, limit, to), history, to, published, limit)
  {
    var s := HandOff(live, keep, limit, to);
    HandOffKeeps(live, history, keep, limit, after, to, published);
    HandedChannel(live, history, keep, limit, after, to, published, edge);
    assert s.sent[s.taken..] == s.sent;
  }

  lemma HandedChannel(live: Sub, history: seq<Event>, keep: Filter, limit: nat, after: nat, to: nat,
        published: set<nat>, edge: nat)
    requires History(history) && live.taken == 0 && after <= edge <= to && Passing(history, keep, edge, to) == []
    requires LiveOk(live, history, after, published, limit) && Delivered(live, history, keep, after)
    ensures var s := HandOff(live, keep, limit, to);
            0 < s.nextSeq && Above(s.sent, edge) == Passing(history, keep, edge, s.nextSeq - 1)
  {
    var s := HandOff(live, keep, limit, to);
    HandOffKeeps(live, history, keep, limit, after, to, published);
    if live.active {
      GainedAbove(Ready(live, to), s, history, keep, edge);
      ChannelFollows(live, s.sent, s.nextSeq, history, keep, after, to, edge);
    } else {
      SentAbove(live, history, keep, after, edge);
    }
  }

  /** A fresh reader is consistent, whatever was published between registration and handoff. */
  lemma OpenedIsOk(live: Sub, history: seq<Event>, keep: Filter, limit: nat, after: nat, last: nat, published: set<nat>)
    requires History(history) && live.taken == 0
    requires LiveOk(live, history, after, published, limit) && Delivered(live, history, keep, after)
    ensures var to := if last > after then last else after;
            var r := Opened(live, history, keep, limit, after, last);
            ReaderOk(r, history, keep, after, to) && LiveOk(r.sub, history, to, published, limit)
  {
    var to := if last > after then last else after;
    PassingTail(history, keep, after, to);
    OpenedSoFar(HandOff(live, keep, limit, to), history, keep, after, to);
    OpenedToCome(live, history, keep, limit, after, to, published, LastSeq(Passing(history, keep, after, to), after));
  }

  // ---------------------------------------------------------------- reading and publishing

  function TookBacklog(r: Reader): Reader
    requires r.index < |r.backlog|
  {
    var e := r.backlog[r.index];
    r.(index := r.index + 1, delivered := e.seqNo, out := r.out + [e])
  }

  lemma BacklogStep(r: Reader, history: seq<Event>, keep: Filter, after: nat, to: nat)
    requires History(history) && SoFar(r, history, keep, after, to) && r.index < |r.backlog|
    ensures r.backlog[r.index].seqNo > r.delivered
    ensures SoFar(TookBacklog(r), history, keep, after, to) && Edge(TookBacklog(r)) == Edge(r)
  {
    PassingPrefix(history, keep, after, to, r.index);
    if r.index > 0 { OrderedPassing(history, keep, after, to, r.index - 1, r.index); }
    assert r.backlog[..r.index + 1] == r.backlog[..r.index] + [r.backlog[r.index]];
    if r.index + 1 == |r.backlog| { PassingTail(history, keep, after, to); }
  }

  lemma PassingMonotone(history: seq<Event>, keep: Filter, low: nat, mid: nat, high: nat)
    requires low <= mid <= high
    ensures |Passing(history, keep, low, mid)| <= |Passing(history, keep, low, high)|
  {
    PassingSplit(history, keep, low, mid, high);
  }

  lemma OrderedPassing(history: seq<Event>, keep: Filter, low: nat, high: nat, i: nat, j: nat)
    requires History(history) && i < j < |Passing(history, keep, low, high)|
    ensures Passing(history, keep, low, high)[i].seqNo < Passing(history, keep, low, high)[j].seqNo
  {
    var s := Passing(history, keep, low, high);
    PassingPrefix(history, keep, low, high, i);
    PassingPrefix(history, keep, low, high, j);
    if s[j].seqNo <= s[i].seqNo {
      PassingMonotone(history, keep, low, s[j].seqNo, s[i].seqNo);
    }
  }

  /** The reader takes one entry of its channel. */
  lemma ToComeStep(s: Sub, history: seq<Event>, keep: Filter, edge: nat, to: nat)
    requires History(history) && ToCome(s, history, keep, edge, to) && s.taken < |s.sent|
    ensures var e := s.sent[s.taken];
            var t := s.(taken := s.taken + 1);
            if e.seqNo <= edge then ToCome(t, history, keep, edge, to)
            else edge < e.seqNo < s.nextSeq && Passing(history, keep, edge, e.seqNo) == [e] && ToCome(t, history, keep, e.seqNo, to)
  {
    var rest := s.sent[s.taken..];
    assert rest[1..] == s.sent[s.taken + 1..];
    HeadFollows(rest, history, keep, edge, s.nextSeq - 1);
  }

  lemma HeadFollows(rest: seq<Event>, history: seq<Event>, keep: Filter, edge: nat, high: nat)
    requires History(history) && rest != [] && Above(rest, edge) == Passing(history, keep, edge, high)
    ensures var e := rest[0];
            if e.seqNo <= edge then Above(rest[1..], edge) == Passing(history, keep, edge, high)
            else edge < e.seqNo <= high && Passing(history, keep, edge, e.seqNo) == [e]
                 && Above(rest[1..], e.seqNo) == Passing(history, keep, e.seqNo, high)
  {
    var e := rest[0];
    AboveHead(rest, edge);
    if e.seqNo > edge {
      assert Above(rest, edge)[1..] == Above(rest[1..], edge);
      PassingHead(history, keep, edge, high);
      AboveTwice(rest[1..], edge, e.seqNo);
      AbovePassing(history, keep, e.seqNo, high, e.seqNo);
    }
  }

  function TookChannel(r: Reader): Reader
    requires r.sub.taken < |r.sub.sent|
  {
    var e := r.sub.sent[r.sub.taken];
    var moved := r.(sub := r.sub.(taken := r.sub.taken + 1));
    if e.seqNo <= r.delivered then moved else moved.(delivered := e.seqNo, out := r.out + [e])
  }

  lemma ChannelStep(r: Reader, history: seq<Event>, keep: Filter, after: nat, to: nat)
    requires History(history) && ReaderOk(r, history, keep, after, to)
    requires r.index == |r.backlog| && r.sub.taken < |r.sub.sent|
    ensures ReaderOk(TookChannel(r), history, keep, after, to)
  {
    var e := r.sub.sent[r.sub.taken];
    ToComeStep(r.sub, history, keep, r.delivered, to);
    if e.seqNo > r.delivered {
      PassingSplit(history, keep, after, r.delivered, e.seqNo);
      if e.seqNo <= to { PassingSplit(history, keep, r.delivered, e.seqNo, to); }
    }
  }

  /** `Next` keeps the reader consistent; an answer is the event it delivers. */
  lemma {:induction false} NextKeeps(r: Reader, history: seq<Event>, keep: Filter, after: nat, to: nat)
    requires History(history) && ReaderOk(r, history, keep, after, to)
    ensures ReaderOk(Next(r).0, history, keep, after, to)
    ensures Next(r).1.Got? ==> Next(r).0.out == r.out + [Next(r).1.e] && r.delivered < Next(r).1.e.seqNo == Next(r).0.delivered
    ensures !Next(r).1.Got? ==> Next(r).0.out == r.out && Drained(Next(r).0)
    decreases |r.backlog| - r.index, |r.sub.sent| - r.sub.taken
  {
    if r.index < |r.backlog| {
      BacklogStep(r, history, keep, after, to);
    } else if r.sub.taken < |r.sub.sent| {
      ChannelStep(r, history, keep, after, to);
      if r.sub.sent[r.sub.taken].seqNo <= r.delivered {
        NextKeeps(r.(sub := r.sub.(taken := r.sub.taken + 1)), history, keep, after, to);
      }
    }
  }

  predicate Drained(r: Reader) { r.index == |r.backlog| && r.sub.taken == |r.sub.sent| }

  /** A publication reaches a consistent reader through its channel only. */
  lemma ToComeGrows(s: Sub, t: Sub, history: seq<Event>, keep: Filter, edge: nat, to: nat)
    requires History(history) && Grows(s, t, history, keep) && ToCome(s, history, keep, edge, to) && s.active
    ensures ToCome(t, history, keep, edge, to)
  {
    var x := t.sent[|s.sent|..];
    assert t.sent[t.taken..] == s.sent[s.taken..] + x;
    AboveConcat(s.sent[s.taken..], x, edge);
    GainedAbove(s, t, history, keep, edge);
    PassingSplit(history, keep, edge, s.nextSeq - 1, t.nextSeq - 1);
  }

  lemma PublishedToReader(r: Reader, history: seq<Event>, keep: Filter, limit: nat, after: nat, to: nat,
        published: set<nat>, e: Event)
    requires History(history) && Publishable(history, e)
    requires ReaderOk(r, history, keep, after, to) && LiveOk(r.sub, history, to, published, limit)
    ensures ReaderOk(r.(sub := Publish(r.sub, keep, limit, e)), history, keep, after, to)
    ensures LiveOk(Publish(r.sub, keep, limit, e), history, to, Seen(published, e), limit)
  {
    PublishGrows(r.sub, history, keep, limit, e);
    PublishTracks(r.sub, keep, limit, e, to, published);
    if r.sub.active {
      ToComeGrows(r.sub, Publish(r.sub, keep, limit, e), history, keep, Edge(r), to);
    }
  }

  // ---------------------------------------------------------------- runs

  datatype Act = Publication(e: Event) | CallNext | Ack(seqNo: nat)

  function Do(r: Reader, keep: Filter, limit: nat, act: Act): Reader {
    match act
    case Publication(e) => r.(sub := Publish(r.sub, keep, limit, e))
    case CallNext => Next(r).0
    case Ack(seqNo) => Acknowledge(r, seqNo)
  }

  function DoAll(r: Reader, keep: Filter, limit: nat, acts: seq<Act>): Reader {
    if |acts| == 0 then r else Do(DoAll(r, keep, limit, acts[..|acts| - 1]), keep, limit, acts[|acts| - 1])
  }

  function SeenBy(published: set<nat>, acts: seq<Act>): set<nat> {
    if |acts| == 0 then published
    else
      var before := SeenBy(published, acts[..|acts| - 1]);
      if acts[|acts| - 1].Publication? then Seen(before, acts[|acts| - 1].e) else before
  }

  ghost predicate ActsFromHistory(history: seq<Event>, acts: seq<Act>) {
    forall i :: 0 <= i < |acts| && acts[i].Publication? ==> Publishable(history, acts[i].e)
  }

  lemma LiveTaken(s: Sub, t: Sub, history: seq<Event>, low: nat, published: set<nat>, limit: nat)
    requires LiveOk(s, history, low, published, limit) && t == s.(taken := t.taken) && s.taken <= t.taken <= |s.sent|
    ensures LiveOk(t, history, low, published, limit)
  {
  }

  lemma {:induction false} NextTakes(r: Reader)
    requires r.sub.taken <= |r.sub.sent|
    ensures Next(r).0.sub == r.sub.(taken := Next(r).0.sub.taken) && r.sub.taken <= Next(r).0.sub.taken <= |r.sub.sent|
    decreases |r.backlog| - r.index, |r.sub.sent| - r.sub.taken
  {
    if r.index < |r.backlog| {
      if r.backlog[r.index].seqNo <= r.delivered { NextTakes(r.(index := r.index + 1)); }
    } else if r.sub.taken < |r.sub.sent| {
      if r.sub.sent[r.sub.taken].seqNo <= r.delivered { NextTakes(r.(sub := r.sub.(taken := r.sub.taken + 1))); }
    }
  }

  lemma ActKeeps(r: Reader, history: seq<Event>, keep: Filter, limit: nat, after: nat, to: nat, published: set<nat>,
        act: Act)
    requires History(history) && (act.Publication? ==> Publishable(history, act.e))
    requires ReaderOk(r, history, keep, after, to) && LiveOk(r.sub, history, to, published, limit)
    ensures ReaderOk(Do(r, keep, limit, act), history, keep, after, to)
    ensures LiveOk(Do(r, keep, limit, act).sub, history, to, if act.Publication? then Seen(published, act.e) else published, limit)
  {
    match act {
      case Publication(e) => PublishedToReader(r, history, keep, limit, after, to, published, e);
      case CallNext =>
        NextKeeps(r, history, keep, after, to);
        NextTakes(r);
        LiveTaken(r.sub, Next(r).0.sub, history, to, published, limit);
      case Ack(_) =>
    }
  }

  lemma {:induction false} RunKeeps(r: Reader, history: seq<Event>, keep: Filter, limit: nat, after: nat, to: nat,
        published: set<nat>, acts: seq<Act>)
    requires History(history) && ActsFromHistory(history, acts)
    requires ReaderOk(r, history, keep, after, to) && LiveOk(r.sub, history, to, published, limit)
    ensures ReaderOk(DoAll(r, keep, limit, acts), history, keep, after, to)
    ensures LiveOk(DoAll(r, keep, limit, acts).sub, history, to, SeenBy(published, acts), limit)
  {
    if |acts| > 0 {
      var before := acts[..|acts| - 1];
      assert forall i :: 0 <= i < |before| ==> before[i] == acts[i];
      RunKeeps(r, history, keep, limit, after, to, published, before);
      ActKeeps(DoAll(r, keep, limit, before), history, keep, limit, after, to, SeenBy(published, before), acts[|acts| - 1]);
    }
  }

  /** A subscription started at `after` and loaded up to `last`, with `early` published between
      registration and handoff and `acts` interleaved afterwards. */
  function Session(history: seq<Event>, keep: Filter, limit: nat, after: nat, early: seq<Op>, last: nat,
        acts: seq<Act>): Reader {
    DoAll(Opened(Delivery.ApplyAll(Subscribed(after), keep, limit, early), history, keep, limit, after, last), keep, limit, acts)
  }

  ghost predicate OnlyPublications(ops: seq<Op>) { forall i :: 0 <= i < |ops| ==> ops[i].Published? }

  lemma {:induction false} NothingTaken(s: Sub, keep: Filter, limit: nat, ops: seq<Op>, history: seq<Event>)
    requires OnlyPublications(ops) && History(history) && FromHistory(history, ops)
    requires Buffers(s, history) && 0 < s.nextSeq
    ensures Delivery.ApplyAll(s, keep, limit, ops).taken == s.taken
    ensures Buffers(Delivery.ApplyAll(s, keep, limit, ops), history) && 0 < Delivery.ApplyAll(s, keep, limit, ops).nextSeq
  {
    if |ops| > 0 {
      var before := ops[..|ops| - 1];
      assert forall i :: 0 <= i < |before| ==> before[i] == ops[i];
      NothingTaken(s, keep, limit, before, history);
      PublishGrows(Delivery.ApplyAll(s, keep, limit, before), history, keep, limit, ops[|ops| - 1].e);
    }
  }

  lemma SessionIsOk(history: seq<Event>, keep: Filter, limit: nat, after: nat, early: seq<Op>, last: nat,
        acts: seq<Act>)
    requires History(history) && OnlyPublications(early) && FromHistory(history, early) && ActsFromHistory(history, acts)
    ensures var to := if last > after then last else after;
            var r := Session(history, keep, limit, after, early, last, acts);
            ReaderOk(r, history, keep, after, to) && LiveOk(r.sub, history, to, SeenBy(PublishedBy(early), acts), limit)
  {
    var to := if last > after then last else after;
    var live := Delivery.ApplyAll(Subscribed(after), keep, limit, early);
    DeliveryIsOrderIndependent(history, keep, limit, after, early);
    NothingTaken(Subscribed(after), keep, limit, early, history);
    OpenedIsOk(live, history, keep, limit, after, last, PublishedBy(early));
    RunKeeps(Opened(live, history, keep, limit, after, last), history, keep, limit, after, to, PublishedBy(early), acts);
  }

  /** The handoff has no gap and no duplicate: for every interleaving of publications with
      registration, loading and reading, `Next` has returned exactly the passing events after the
      cursor up to the last one it returned, in order, once each. */
  lemma HandoffIsGapFree(history: seq<Event>, keep: Filter, limit: nat, after: nat, early: seq<Op>, last: nat,
        acts: seq<Act>)
    requires History(history) && OnlyPublications(early) && FromHistory(history, early) && ActsFromHistory(history, acts)
    ensures var r := Session(history, keep, limit, after, early, last, acts);
            r.out == Passing(history, keep, after, r.delivered)
    ensures var out := Session(history, keep, limit, after, early, last, acts).out;
            forall i, j :: 0 <= i < j < |out| ==> out[i].seqNo < out[j].seqNo
  {
    SessionIsOk(history, keep, limit, after, early, last, acts);
    var r := Session(history, keep, limit, after, early, last, acts);
    forall i, j | 0 <= i < j < |r.out| ensures r.out[i].seqNo < r.out[j].seqNo {
      OrderedPassing(history, keep, after, r.delivered, i, j);
    }
  }

  /** Nothing is missed: once every event beyond the loaded part has been published, an active
      subscriber that has read all there is has received every passing event of the session. */
  lemma NothingIsMissed(history: seq<Event>, keep: Filter, limit: nat, after: nat, early: seq<Op>, last: nat,
        acts: seq<Act>)
    requires History(history) && OnlyPublications(early) && FromHistory(history, early) && ActsFromHistory(history, acts)
    requires last <= |history| && after <= |history|
    requires forall q :: last < q <= |history| && after < q ==> q in SeenBy(PublishedBy(early), acts)
    requires Session(history, keep, limit, after, early, last, acts).sub.active
    requires Drained(Session(history, keep, limit, after, early, last, acts))
    ensures Session(history, keep, limit, after, early, last, acts).out == Passing(history, keep, after, |history|)
  {
    var r := Session(history, keep, limit, after, early, last, acts);
    SessionIsOk(history, keep, limit, after, early, last, acts);
    assert r.sub.sent[r.sub.taken..] == [];
    assert Above([], Edge(r)) == [];
    assert r.sub.nextSeq > |history|;
    EmptyPrefix(history, keep, r.delivered, |history|, r.sub.nextSeq - 1);
    if r.delivered <= |history| {
      PassingSplit(history, keep, after, r.delivered, |history|);
    } else {
      PassingSplit(history, keep, after, |history|, r.delivered);
      BeyondHistory(history, keep, |history|, r.delivered);
    }
  }

  lemma {:induction false} BeyondHistory(history: seq<Event>, keep: Filter, low: nat, high: nat)
    requires |history| <= low
    ensures Passing(history, keep, low, high) == []
  {
    if low < high { BeyondHistory(history, keep, low, high - 1); }
  }

  /** Reconnecting from the acknowledged cursor misses nothing: what was acknowledged before,
      followed by what the new subscription returns, is again the full list of passing events. */
  lemma ResubscribeMissesNothing(history: seq<Event>, keep: Filter, limit: nat, after: nat,
                                 early: seq<Op>, last: nat, acts: seq<Act>, early': seq<Op>, last': nat, acts': seq<Act>)
    requires History(history) && OnlyPublications(early) && FromHistory(history, early) && ActsFromHistory(history, acts)
    requires OnlyPublications(early') && FromHistory(history, early') && ActsFromHistory(history, acts')
    ensures var first := Session(history, keep, limit, after, early, last, acts);
            var second := Session(history, keep, limit, first.acked, early', last', acts');
            && Passing(history, keep, after, first.acked) <= first.out
            && Passing(history, keep, after, first.acked) + second.out == Passing(history, keep, after, second.delivered)
  {
    var first := Session(history, keep, limit, after, early, last, acts);
    var second := Session(history, keep, limit, first.acked, early', last', acts');
    SessionIsOk(history, keep, limit, after, early, last, acts);
    SessionIsOk(history, keep, limit, first.acked, early', last', acts');
    PassingSplit(history, keep, after, first.acked, first.delivered);
    PassingSplit(history, keep, after, first.acked, second.delivered);
  }
}
