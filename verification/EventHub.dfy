/** The hub and its subscriptions as objects (agent/events.go:101-424). Each method is proved against
    the operation of Delivery or Replay that says what it does to one subscription. */
module EventHubs {
  import opened Events
  import opened Delivery
  import Replay

  /** The hub's side of a subscription. `sent` records everything ever put on the channel. */
  class EventSubscription {
    const keep: Filter
    var closed: bool
    var lagged: bool
    var nextSeq: nat
    var pending: map<nat, Event>
    var ch: seq<Event>
    ghost var sent: seq<Event>

    constructor (after: nat, keep: Filter)
      ensures Valid() && Abs() == Subscribed(after) && this.keep == keep
    {
      this.keep := keep;
      closed, lagged, nextSeq, pending, ch, sent := false, false, after + 1, map[], [], [];
    }

    ghost predicate Valid()
      reads this
    {
      |ch| <= |sent| && ch == sent[|sent| - |ch|..]
    }

    ghost function Abs(): Sub
      requires Valid()
      reads this
    {
      Sub(!closed, lagged, nextSeq, pending, sent, |sent| - |ch|)
    }

    method Terminate(lagging: bool)
      requires Valid()
      modifies this
      ensures Valid() && Abs() == Terminated(old(Abs()), lagging)
    {
      if closed {
        return;
      }
      lagged, closed := lagging, true;
    }

    /** A full channel refuses the event. */
    method Enqueue(limit: nat, e: Event) returns (ok: bool)
      requires Valid()
      modifies this
      ensures Valid() && ok == Room(old(Abs()), limit)
      ensures Abs() == if ok then old(Abs()).(sent := old(sent) + [e]) else old(Abs())
    {
      ok := |ch| < limit;
      if ok {
        ch, sent := ch + [e], sent + [e];
      }
    }

    /** The reader's side of the channel. */
    method Receive() returns (e: Event)
      requires Valid() && |ch| > 0
      modifies this`ch
      ensures Valid() && |ch| == |old(ch)| - 1
      ensures e == sent[old(Abs()).taken] && Abs() == old(Abs()).(taken := old(Abs()).taken + 1)
    {
      e := ch[0];
      ch := ch[1..];
    }

    /** One turn of the flush: whether the expected sequence was buffered and could be passed. */
    method FlushOne(limit: nat) returns (more: bool)
      requires Valid() && nextSeq in pending
      modifies this
      ensures Valid() && |pending| <= old(|pending|) && (more ==> |pending| < old(|pending|))
      ensures Flush(old(Abs()), keep, limit) == if more then Flush(Abs(), keep, limit) else Abs()
    {
      var e := pending[nextSeq];
      if keep(e) {
        var ok := Enqueue(limit, e);
        if !ok {
          Terminate(true);
          return false;
        }
      }
      pending := pending - {nextSeq};
      nextSeq := nextSeq + 1;
      return true;
    }

    method FlushPending(limit: nat)
      requires Valid()
      modifies this
      ensures Valid() && Abs() == Flush(old(Abs()), keep, limit)
    {
      ghost var goal := Flush(Abs(), keep, limit);
      var more := true;
      while more && nextSeq in pending
        invariant Valid() && goal == if more then Flush(Abs(), keep, limit) else Abs()
        decreases more, |pending|
      {
        more := FlushOne(limit);
      }
    }

    /** What the hub does with one committed event for one subscriber. */
    method Offer(limit: nat, e: Event)
      requires Valid() && !closed
      modifies this
      ensures Valid() && Abs() == Publish(old(Abs()), keep, limit, e)
    {
      if e.seqNo == 0 {
        if keep(e) {
          var ok := Enqueue(limit, e);
          if !ok { Terminate(true); }
        }
        return;
      }
      if e.seqNo < nextSeq {
        return;
      }
      if e.seqNo > nextSeq {
        pending := pending[e.seqNo := e];
        if |pending| > limit { Terminate(true); }
        return;
      }
      if keep(e) {
        var ok := Enqueue(limit, e);
        if !ok {
          Terminate(true);
          return;
        }
      }
      nextSeq := nextSeq + 1;
      FlushPending(limit);
    }

    /** Forgets buffered events below the cursor. */
    method DropCovered()
      requires Valid()
      modifies this`pending
      ensures Valid() && pending == map q | q in old(pending) && q >= nextSeq :: old(pending)[q]
    {
      ghost var before := pending;
      var todo := pending.Keys;
      while todo != {}
        invariant todo <= before.Keys
        invariant forall q :: q in pending ==> q in before && pending[q] == before[q]
        invariant forall q :: q in before ==> (q in pending <==> q in todo || q >= nextSeq)
        decreases |todo|
      {
        var q :| q in todo;
        if q < nextSeq {
          pending := pending - {q};
        }
        todo := todo - {q};
      }
    }

    /** Replay was loaded up to `last`: skip what it covers and send what raced with it. */
    method HandOver(limit: nat, last: nat)
      requires Valid()
      modifies this
      ensures Valid() && Abs() == HandOff(old(Abs()), keep, limit, last)
    {
      if closed {
        return;
      }
      if last + 1 > nextSeq {
        nextSeq := last + 1;
      }
      DropCovered();
      FlushPending(limit);
    }
  }

  /** The states while only `todo` is still to be offered the event. */
  ghost function Mixed(before: map<nat, Sub>, after: map<nat, Sub>, todo: set<nat>): map<nat, Sub>
    requires before.Keys == after.Keys
  {
    map id | id in before :: if id in todo then before[id] else after[id]
  }

  lemma MixedEnds(before: map<nat, Sub>, after: map<nat, Sub>)
    requires before.Keys == after.Keys
    ensures Mixed(before, after, before.Keys) == before && Mixed(before, after, {}) == after
  {
  }

  lemma MixedStep(before: map<nat, Sub>, after: map<nat, Sub>, todo: set<nat>, id: nat)
    requires before.Keys == after.Keys && id in before
    ensures Mixed(before, after, todo - {id}) == Mixed(before, after, todo)[id := after[id]]
  {
  }

  /** The fan-out: the active subscriptions by id. */
  class EventHub {
    const limit: nat
    var nextId: nat
    var subs: map<nat, EventSubscription>

    constructor (buffer: int)
      ensures Valid() && subs == map[] && limit == (if buffer <= 0 then 64 else buffer)
    {
      limit := if buffer <= 0 then 64 else buffer;
      nextId, subs := 0, map[];
    }

    ghost predicate Valid()
      reads this, subs.Values
    {
      && (forall id :: id in subs ==> id <= nextId && subs[id].Valid() && !subs[id].closed)
      && (forall i, j :: i in subs && j in subs && i != j ==> subs[i] != subs[j])
    }

    /** Registers a live subscription under a new id. */
    method Register(after: nat, keep: Filter) returns (sub: EventSubscription)
      requires Valid()
      modifies this
      ensures Valid() && fresh(sub) && sub.Valid() && sub.Abs() == Subscribed(after) && sub.keep == keep
      ensures subs == old(subs)[nextId := sub] && nextId == old(nextId) + 1
    {
      nextId := nextId + 1;
      sub := new EventSubscription(after, keep);
      subs := subs[nextId := sub];
    }

    /** Every subscription is in the state a table gives for it. */
    ghost predicate InStates(all: map<nat, EventSubscription>, states: map<nat, Sub>)
      reads all.Values
    {
      all.Keys <= states.Keys && forall id :: id in all ==> all[id].Valid() && all[id].Abs() == states[id]
    }

    ghost function States(all: map<nat, EventSubscription>): map<nat, Sub>
      requires forall id :: id in all ==> all[id].Valid()
      reads all.Values
    {
      map id | id in all :: all[id].Abs()
    }

    /** One committed event reaches every active subscription; those it terminates are removed. */
    method Broadcast(e: Event)
      requires Valid()
      modifies this, subs.Values
      ensures Valid()
      ensures InStates(old(subs), map id | id in old(subs) :: Publish(old(States(subs))[id], old(subs)[id].keep, limit, e))
      ensures subs == map id | id in old(subs) && !old(subs)[id].closed :: old(subs)[id]
    {
      var all := subs;
      ghost var before := States(all);
      ghost var after := map id | id in all :: Publish(before[id], all[id].keep, limit, e);
      OfferAll(all, e, before, after);
      RemoveClosed();
    }

    method OfferAll(all: map<nat, EventSubscription>, e: Event, ghost before: map<nat, Sub>, ghost after: map<nat, Sub>)
      requires InStates(all, before) && after.Keys == before.Keys == all.Keys
      requires forall id :: id in all ==> before[id].active && after[id] == Publish(before[id], all[id].keep, limit, e)
      requires forall i, j :: i in all && j in all && i != j ==> all[i] != all[j]
      modifies all.Values
      ensures InStates(all, after)
    {
      var todo := all.Keys;
      MixedEnds(before, after);
      while todo != {}
        invariant todo <= all.Keys && InStates(all, Mixed(before, after, todo))
        decreases |todo|
      {
        var id :| id in todo;
        OfferNext(all, id, e, before, after, todo);
        todo := todo - {id};
      }
    }

    method OfferNext(all: map<nat, EventSubscription>, id: nat, e: Event, ghost before: map<nat, Sub>,
          ghost after: map<nat, Sub>, ghost todo: set<nat>)
      requires after.Keys == before.Keys == all.Keys && id in todo && todo <= all.Keys && InStates(all, Mixed(before, after, todo))
      requires before[id].active && after[id] == Publish(before[id], all[id].keep, limit, e)
      requires forall i, j :: i in all && j in all && i != j ==> all[i] != all[j]
      modifies all[id]
      ensures InStates(all, Mixed(before, after, todo - {id}))
    {
      OfferTo(all, id, e, Mixed(before, after, todo), after[id]);
      MixedStep(before, after, todo, id);
    }

    /** Terminated subscriptions leave the fan-out. */
    method RemoveClosed()
      modifies this`subs
      ensures subs == map id | id in old(subs) && !old(subs)[id].closed :: old(subs)[id]
    {
      var all := subs;
      var todo := all.Keys;
      while todo != {}
        invariant todo <= all.Keys
        invariant subs == map id | id in all && (id in todo || !all[id].closed) :: all[id]
        decreases |todo|
      {
        var id :| id in todo;
        if all[id].closed {
          subs := subs - {id};
        }
        todo := todo - {id};
      }
    }

    /** Offers to one subscription; the others are other objects. */
    method OfferTo(all: map<nat, EventSubscription>, id: nat, e: Event, ghost states: map<nat, Sub>, ghost next: Sub)
      requires id in all && InStates(all, states) && states[id].active && next == Publish(states[id], all[id].keep, limit, e)
      requires forall i, j :: i in all && j in all && i != j ==> all[i] != all[j]
      modifies all[id]
      ensures InStates(all, states[id := next])
    {
      all[id].Offer(limit, e);
    }
  }

  /** The reader's side: the replayed backlog, then the live channel. */
  class Subscription {
    const sub: EventSubscription
    var backlog: seq<Event>
    var index: nat
    var lastSeq: nat
    var deliveredSeq: nat
    ghost var out: seq<Event>

    ghost predicate Valid()
      reads this, sub
    {
      sub.Valid()
    }

    ghost function Abs(): Replay.Reader
      requires Valid()
      reads this, sub
    {
      Replay.Reader(sub.Abs(), backlog, index, deliveredSeq, lastSeq, out)
    }

    /** Joins a registered live side with a replay of the session's stored events `from` to `to`. */
    constructor (limit: nat, live: EventSubscription, after: nat, replay: seq<Event>,
                 ghost history: seq<Event>, ghost from: nat, ghost to: nat)
      requires live.Valid() && History(history) && from <= after && from <= to <= |history| && replay == history[from..to]
      modifies live
      ensures sub == live && Valid()
      ensures Abs() == Replay.Opened(old(live.Abs()), history, live.keep, limit, after, to)
    {
      sub := live;
      var filtered: seq<Event> := [];
      var maxReplay := after;
      for i := 0 to |replay|
        invariant maxReplay == if from + i > after then from + i else after
        invariant filtered == Passing(history, live.keep, after, maxReplay)
      {
        var e := replay[i];
        assert e == history[from + i] && e.seqNo == from + i + 1;
        if e.seqNo <= after {
          continue;
        }
        if e.seqNo > maxReplay {
          maxReplay := e.seqNo;
        }
        if live.keep(e) {
          filtered := filtered + [e];
        }
      }
      backlog, index, lastSeq, deliveredSeq, out := filtered, 0, after, after, [];
      new;
      sub.HandOver(limit, maxReplay);
    }

    /** The next backlog entry above the delivered cursor. */
    method NextReplayed() returns (answer: Option<Event>)
      requires Valid()
      modifies this
      ensures Valid() && sub.Abs() == old(sub.Abs())
      ensures answer.Some? ==> Replay.Next(old(Abs())) == (Abs(), Replay.Got(answer.value))
      ensures answer.None? ==> Replay.Next(old(Abs())) == Replay.Next(Abs()) && index >= |backlog|
    {
      ghost var goal := Replay.Next(Abs());
      while index < |backlog|
        invariant Valid() && sub.Abs() == old(sub.Abs()) && Replay.Next(Abs()) == goal
        decreases |backlog| - index
      {
        var e := backlog[index];
        index := index + 1;
        if e.seqNo > deliveredSeq {
          deliveredSeq, out := e.seqNo, out + [e];
          return Some(e);
        }
      }
      return None;
    }

    /** The next live event above the delivered cursor. */
    method NextLive() returns (answer: Option<Event>)
      requires Valid() && index >= |backlog|
      modifies this, sub
      ensures Valid()
      ensures answer.Some? ==> Replay.Next(old(Abs())) == (Abs(), Replay.Got(answer.value))
      ensures answer.None? ==> Replay.Next(old(Abs())) == Replay.Next(Abs()) && index >= |backlog| && sub.ch == []
    {
      ghost var goal := Replay.Next(Abs());
      while |sub.ch| > 0
        invariant Valid() && index >= |backlog| && Replay.Next(Abs()) == goal
        decreases |sub.ch|
      {
        var e := sub.Receive();
        if e.seqNo > deliveredSeq {
          deliveredSeq, out := e.seqNo, out + [e];
          return Some(e);
        }
      }
      return None;
    }

    method Next() returns (answer: Replay.Answer)
      requires Valid()
      modifies this, sub
      ensures Valid() && (Abs(), answer) == Replay.Next(old(Abs()))
    {
      var found := NextReplayed();
      if found.None? {
        found := NextLive();
      }
      if found.Some? {
        return Replay.Got(found.value);
      }
      return if !sub.closed then Replay.Waiting else if sub.lagged then Replay.Lagged else Replay.Closed;
    }

    method Acknowledge(seqNo: nat)
      requires Valid()
      modifies this
      ensures Valid() && Abs() == Replay.Acknowledge(old(Abs()), seqNo)
    {
      var capped := if seqNo > deliveredSeq then deliveredSeq else seqNo;
      if capped > lastSeq {
        lastSeq := capped;
      }
    }
  }
}
