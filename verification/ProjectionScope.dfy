/** The projection reads nothing but surface and compaction events, so a loop whose cache misses
    lifecycle, inbox and approval records still projects what the full log projects
    (agent/loop.go:2247-2305 against session/surface.go:169-434). */
module ProjectionScope {
  import opened Events
  import opened Surface
  import Store

  predicate Relevant(e: Event) { IsSurface(e.payload) || IsCompaction(e.payload) }

  /** The events a projection can depend on. */
  function RelevantOnly(events: seq<Event>): seq<Event> {
    if |events| == 0 then []
    else
      var e := events[|events| - 1];
      var rest := RelevantOnly(events[..|events| - 1]);
      if Relevant(e) then rest + [e] else rest
  }

  lemma {:induction false} RelevantMembers(events: seq<Event>)
    ensures forall e :: e in RelevantOnly(events) <==> e in events && Relevant(e)
  {
    if |events| > 0 {
      assert events == events[..|events| - 1] + [events[|events| - 1]];
      RelevantMembers(events[..|events| - 1]);
    }
  }

  lemma RestSnoc(events: seq<Event>)
    requires |events| > 0 && Relevant(events[|events| - 1])
    ensures var kept := RelevantOnly(events);
            |kept| > 0 && kept[|kept| - 1] == events[|events| - 1] && kept[..|kept| - 1] == RelevantOnly(events[..|events| - 1])
  {
  }

  lemma {:induction false} SameLedger(events: seq<Event>)
    ensures FoldLedger(RelevantOnly(events)) == FoldLedger(events)
  {
    if |events| > 0 {
      SameLedger(events[..|events| - 1]);
      if Relevant(events[|events| - 1]) { RestSnoc(events); }
    }
  }

  lemma {:induction false} SameLast(events: seq<Event>, call: string)
    ensures LastResult(RelevantOnly(events), call) == LastResult(events, call)
    ensures LastAssistant(RelevantOnly(events), call) == LastAssistant(events, call)
  {
    if |events| > 0 {
      SameLast(events[..|events| - 1], call);
      if Relevant(events[|events| - 1]) { RestSnoc(events); }
    }
  }

  lemma {:induction false} SameCatalog(events: seq<Event>, shadowed: set<nat>)
    ensures LatestCatalog(RelevantOnly(events), shadowed) == LatestCatalog(events, shadowed)
  {
    if |events| > 0 {
      SameCatalog(events[..|events| - 1], shadowed);
      if Relevant(events[|events| - 1]) { RestSnoc(events); }
    }
  }

  lemma {:induction false} SameNodes(events: seq<Event>, latest: nat, replaced: set<nat>, done: map<nat, Replacement>)
    ensures BuildNodes(RelevantOnly(events), latest, replaced, done) == BuildNodes(events, latest, replaced, done)
  {
    if |events| > 0 {
      SameNodes(events[..|events| - 1], latest, replaced, done);
      if Relevant(events[|events| - 1]) { RestSnoc(events); }
    }
  }

  /** The pairing check speaks of members only. */
  ghost predicate PairingByMember(events: seq<Event>, shadowed: set<nat>) {
    && (forall e, call {:trigger call in e.payload.calls} ::
          (e in events && e.payload.AssistantMessage? && call in e.payload.calls && call != ""
           && e.seqNo !in shadowed && LastResult(events, call).Some?) ==> LastResult(events, call).value !in shadowed)
    && (forall e :: e in events && e.payload.ToolResult? && e.seqNo !in shadowed ==> ResultSources(events, e) !! shadowed)
  }

  lemma PairingMembers(events: seq<Event>, shadowed: set<nat>)
    ensures ValidPairing(events, shadowed) <==> PairingByMember(events, shadowed)
  {
    if ValidPairing(events, shadowed) {
      forall e, call {:trigger call in e.payload.calls} | e in events && e.payload.AssistantMessage? && call in e.payload.calls && call != ""
        && e.seqNo !in shadowed && LastResult(events, call).Some?
        ensures LastResult(events, call).value !in shadowed
      {
        var i :| 0 <= i < |events| && events[i] == e;
        assert call in events[i].payload.calls;
      }
    }
  }

  lemma SamePairing(events: seq<Event>, shadowed: set<nat>)
    ensures ValidPairing(RelevantOnly(events), shadowed) <==> ValidPairing(events, shadowed)
  {
    PairingMembers(events, shadowed);
    PairingMembers(RelevantOnly(events), shadowed);
    RelevantMembers(events);
    forall call ensures LastResult(RelevantOnly(events), call) == LastResult(events, call)
      && LastAssistant(RelevantOnly(events), call) == LastAssistant(events, call)
    {
      SameLast(events, call);
    }
    assert forall e :: ResultSources(RelevantOnly(events), e) == ResultSources(events, e);
  }

  /** Deleting every other event leaves the projection unchanged. */
  lemma ProjectionReadsOnlyRelevant(events: seq<Event>)
    ensures Project(RelevantOnly(events)) == Project(events)
  {
    SameLedger(events);
    if FoldLedger(events).Ok? {
      var rs := Sealed(FoldLedger(events).value);
      if ApplyAll(rs).Ok? {
        var shadowed := ApplyAll(rs).value.shadowed;
        SamePairing(events, shadowed);
        SameCatalog(events, shadowed);
        SameNodes(events, LatestCatalog(events, shadowed), shadowed, ByReplacementSeq(rs));
      }
    }
  }

  lemma SameRelevantProjects(cache: seq<Event>, log: seq<Event>)
    requires RelevantOnly(cache) == RelevantOnly(log)
    ensures Project(cache) == Project(log) && Messages(cache) == Messages(log)
  {
    ProjectionReadsOnlyRelevant(cache);
    ProjectionReadsOnlyRelevant(log);
  }

  // ---------------------------------------------------------------- the cache of a loop

  /** A loop's view of its session: the store's log and the cached copy. */
  datatype View = View(log: seq<Event>, cache: seq<Event>)

  /** The loop appends a batch; something else appends past it; the loop reloads the log. */
  datatype Write = Own(batch: seq<Event>, tokens: seq<EventId>) | Past(e: Event) | Reload

  function CacheLast(cache: seq<Event>): nat { if |cache| == 0 then 0 else cache[|cache| - 1].seqNo }

  /** What the fold keeps of the committed events: those after the last cached sequence. */
  function Newer(committed: seq<Event>, after: nat): seq<Event> {
    if |committed| == 0 then []
    else
      var e := committed[|committed| - 1];
      Newer(committed[..|committed| - 1], after) + (if e.seqNo > after then [e] else [])
  }

  function IdAt(batch: seq<Event>, tokens: seq<EventId>, k: nat): EventId
    requires |tokens| == |batch| && k < |batch|
  {
    Store.WithId(batch[k], tokens[k]).id
  }

  /** No id that is new to the log is repeated inside the batch, and what the batch repeats of the
      log is not newer than the cache. */
  ghost predicate OwnBatch(v: View, batch: seq<Event>, tokens: seq<EventId>) {
    && |tokens| == |batch|
    && (forall j, k :: 0 <= j < k < |batch| && IdAt(batch, tokens, j) == IdAt(batch, tokens, k) ==>
          Store.Find(v.log, IdAt(batch, tokens, k)).Some?)
    && (forall k :: 0 <= k < |batch| ==> RepeatsOld(v, IdAt(batch, tokens, k)))
  }

  predicate RepeatsOld(v: View, id: EventId) {
    Store.Find(v.log, id).Some? ==> Store.Find(v.log, id).value.seqNo <= CacheLast(v.cache)
  }

  /** Inbox, status and approval records are appended without the loop; none of them is relevant. */
  ghost predicate Allowed(v: View, w: Write) {
    match w
    case Own(batch, tokens) => OwnBatch(v, batch, tokens)
    case Past(e) => !Relevant(e)
    case Reload => true
  }

  ghost function Take(v: View, sid: string, w: Write): View {
    if !Allowed(v, w) then v
    else match w
      case Own(batch, tokens) =>
        var c := Store.Committed(v.log, sid, batch, tokens);
        View(c.log, v.cache + Newer(c.committed, CacheLast(v.cache)))
      case Past(e) => v.(log := v.log + [Store.Stored(e, sid, |v.log| + 1)])
      case Reload => v.(cache := v.log)
  }

  /** A loop starts by loading the log. */
  ghost function Run(log: seq<Event>, sid: string, writes: seq<Write>): View {
    if |writes| == 0 then View(log, log)
    else Take(Run(log, sid, writes[..|writes| - 1]), sid, writes[|writes| - 1])
  }

  ghost predicate ViewOk(v: View, sid: string) {
    && Store.Contiguous(v.log, sid) && Ordered(v.cache) && CacheLast(v.cache) <= |v.log|
    && RelevantOnly(v.cache) == RelevantOnly(v.log)
  }

  lemma {:induction false} RelevantConcat(a: seq<Event>, b: seq<Event>)
    ensures RelevantOnly(a + b) == RelevantOnly(a) + RelevantOnly(b)
  {
    if |b| == 0 {
      assert a + b == a;
    } else {
      RelevantConcat(a, b[..|b| - 1]);
      assert (a + b)[..|a + b| - 1] == a + b[..|b| - 1];
    }
  }

  lemma CachedIsOld(cache: seq<Event>, e: Event)
    requires Ordered(cache) && e in cache
    ensures e.seqNo <= CacheLast(cache)
  {
    var i :| 0 <= i < |cache| && cache[i] == e;
  }

  ghost predicate Names(batch: seq<Event>, tokens: seq<EventId>, id: EventId)
    requires |tokens| == |batch|
  {
    exists k :: 0 <= k < |batch| && IdAt(batch, tokens, k) == id
  }

  /** New events of the batch, and their ids are the batch's. */
  ghost predicate AddedBy(log: seq<Event>, after: seq<Event>, batch: seq<Event>, tokens: seq<EventId>)
    requires |tokens| == |batch|
  {
    log <= after && forall i :: |log| <= i < |after| ==> Names(batch, tokens, after[i].id)
  }

  lemma AddedGrows(log: seq<Event>, after: seq<Event>, batch: seq<Event>, tokens: seq<EventId>)
    requires |tokens| == |batch| > 0 && AddedBy(log, after, batch[..|batch| - 1], tokens[..|tokens| - 1])
    ensures AddedBy(log, after, batch, tokens)
  {
    forall i | |log| <= i < |after| ensures Names(batch, tokens, after[i].id) {
      var k :| 0 <= k < |batch| - 1 && IdAt(batch[..|batch| - 1], tokens[..|tokens| - 1], k) == after[i].id;
      assert IdAt(batch, tokens, k) == after[i].id;
    }
  }

  lemma AddedSnoc(log: seq<Event>, after: seq<Event>, e: Event, batch: seq<Event>, tokens: seq<EventId>)
    requires |tokens| == |batch| > 0 && AddedBy(log, after, batch, tokens) && e.id == IdAt(batch, tokens, |batch| - 1)
    ensures AddedBy(log, after + [e], batch, tokens)
  {
    assert Names(batch, tokens, e.id);
  }

  lemma NewerSnoc(committed: seq<Event>, e: Event, after: nat)
    ensures Newer(committed + [e], after) == Newer(committed, after) + (if e.seqNo > after then [e] else [])
  {
    assert (committed + [e])[..|committed|] == committed;
  }

  lemma CommittedStep(log: seq<Event>, sid: string, batch: seq<Event>, tokens: seq<EventId>, before: Store.Commit)
    requires |tokens| == |batch| > 0
    requires before == Store.Committed(log, sid, batch[..|batch| - 1], tokens[..|tokens| - 1])
    ensures var prior := Store.Find(before.log, IdAt(batch, tokens, |batch| - 1));
            Store.Committed(log, sid, batch, tokens)
            == if prior.Some? then Store.Commit(before.log, before.committed + [prior.value])
               else var stored := NewlyStored(sid, batch, tokens, before); Store.Commit(before.log + [stored], before.committed + [stored])
  {
  }

  function NewlyStored(sid: string, batch: seq<Event>, tokens: seq<EventId>, before: Store.Commit): (e: Event)
    requires |tokens| == |batch| > 0
    ensures e.id == IdAt(batch, tokens, |batch| - 1) && e.seqNo == |before.log| + 1
  {
    Store.Stored(Store.WithId(batch[|batch| - 1], tokens[|batch| - 1]), sid, |before.log| + 1)
  }

  /** What the log holds under an id after a batch: what it held before, or the batch's first event
      of that id. */
  lemma {:induction false} FindAfter(log: seq<Event>, sid: string, batch: seq<Event>, tokens: seq<EventId>, id: EventId)
    requires |tokens| == |batch|
    ensures var c := Store.Committed(log, sid, batch, tokens);
            && |c.log| >= |log|
            && (Store.Find(log, id).Some? ==> Store.Find(c.log, id) == Store.Find(log, id))
            && (Store.Find(log, id).None? ==> (Store.Find(c.log, id).Some? <==> Names(batch, tokens, id)))
            && (Store.Find(log, id).None? && Names(batch, tokens, id) ==> Store.Find(c.log, id).value.seqNo > |log|)
  {
    if |batch| > 0 {
      var init, ids := batch[..|batch| - 1], tokens[..|tokens| - 1];
      var before := Store.Committed(log, sid, init, ids);
      FindAfter(log, sid, init, ids, id);
      NamesSnoc(batch, tokens, id);
      CommittedStep(log, sid, batch, tokens, before);
      if Store.Find(before.log, IdAt(batch, tokens, |batch| - 1)).None? {
        FindSnoc(before.log, NewlyStored(sid, batch, tokens, before), id);
      }
    }
  }

  lemma FindSnoc(log: seq<Event>, e: Event, id: EventId)
    ensures Store.Find(log + [e], id) == if e.id == id then Some(e) else Store.Find(log, id)
  {
    assert (log + [e])[..|log|] == log;
  }

  lemma NamesSnoc(batch: seq<Event>, tokens: seq<EventId>, id: EventId)
    requires |tokens| == |batch| > 0
    ensures Names(batch, tokens, id)
       <==> Names(batch[..|batch| - 1], tokens[..|tokens| - 1], id) || IdAt(batch, tokens, |batch| - 1) == id
  {
    var init, ids := batch[..|batch| - 1], tokens[..|tokens| - 1];
    assert forall k :: 0 <= k < |init| ==> IdAt(init, ids, k) == IdAt(batch, tokens, k);
  }

  lemma {:induction false} AddedByBatch(log: seq<Event>, sid: string, batch: seq<Event>, tokens: seq<EventId>)
    requires |tokens| == |batch|
    ensures AddedBy(log, Store.Committed(log, sid, batch, tokens).log, batch, tokens)
  {
    if |batch| > 0 {
      var before := Store.Committed(log, sid, batch[..|batch| - 1], tokens[..|tokens| - 1]);
      AddedByBatch(log, sid, batch[..|batch| - 1], tokens[..|tokens| - 1]);
      AddedGrows(log, before.log, batch, tokens);
      CommittedStep(log, sid, batch, tokens, before);
      if Store.Find(before.log, IdAt(batch, tokens, |batch| - 1)).None? {
        AddedSnoc(log, before.log, NewlyStored(sid, batch, tokens, before), batch, tokens);
      }
    }
  }

  /** The last position of a batch may be folded: its id is neither repeated nor of a later event. */
  ghost predicate LastIsFine(v: View, batch: seq<Event>, tokens: seq<EventId>)
    requires |tokens| == |batch| > 0
  {
    var id := IdAt(batch, tokens, |batch| - 1);
    RepeatsOld(v, id) && (Names(batch[..|batch| - 1], tokens[..|tokens| - 1], id) ==> Store.Find(v.log, id).Some?)
  }

  lemma OwnSnoc(v: View, batch: seq<Event>, tokens: seq<EventId>)
    requires |tokens| == |batch| > 0
    ensures OwnBatch(v, batch, tokens)
       <==> OwnBatch(v, batch[..|batch| - 1], tokens[..|tokens| - 1]) && LastIsFine(v, batch, tokens)
  {
    var init, ids := batch[..|batch| - 1], tokens[..|tokens| - 1];
    forall k | 0 <= k < |init| ensures IdAt(init, ids, k) == IdAt(batch, tokens, k) {}
    if OwnBatch(v, batch, tokens) {
      forall j, k | 0 <= j < k < |init| && IdAt(init, ids, j) == IdAt(init, ids, k) ensures Store.Find(v.log, IdAt(init, ids, k)).Some? {
        assert IdAt(batch, tokens, j) == IdAt(batch, tokens, k);
      }
      forall k | 0 <= k < |init| ensures RepeatsOld(v, IdAt(init, ids, k)) {
        assert RepeatsOld(v, IdAt(batch, tokens, k));
      }
    }
    if OwnBatch(v, init, ids) && LastIsFine(v, batch, tokens) {
      forall j, k | 0 <= j < k < |batch| && IdAt(batch, tokens, j) == IdAt(batch, tokens, k)
        ensures Store.Find(v.log, IdAt(batch, tokens, k)).Some?
      {
        if k < |init| { assert IdAt(init, ids, j) == IdAt(init, ids, k); } else { assert IdAt(init, ids, j) == IdAt(batch, tokens, k); }
      }
      forall k | 0 <= k < |batch| ensures RepeatsOld(v, IdAt(batch, tokens, k)) {
        if k < |init| { assert RepeatsOld(v, IdAt(init, ids, k)); }
      }
    }
  }

  /** What the fold keeps of a batch: never fewer events than the append added, and just these
      exactly for own batches. */
  lemma {:induction false} FoldKeeps(v: View, sid: string, batch: seq<Event>, tokens: seq<EventId>)
    requires CacheLast(v.cache) <= |v.log| && |tokens| == |batch|
    ensures var c := Store.Committed(v.log, sid, batch, tokens);
            var kept := Newer(c.committed, CacheLast(v.cache));
            && |c.log| <= |v.log + kept|
            && if OwnBatch(v, batch, tokens) then c.log == v.log + kept else |c.log| < |v.log + kept|
  {
    if |batch| > 0 {
      var init, ids := batch[..|batch| - 1], tokens[..|tokens| - 1];
      var before := Store.Committed(v.log, sid, init, ids);
      FoldKeeps(v, sid, init, ids);
      OwnSnoc(v, batch, tokens);
      FindAfter(v.log, sid, init, ids, IdAt(batch, tokens, |batch| - 1));
      CommittedStep(v.log, sid, batch, tokens, before);
      FoldStep(v, sid, batch, tokens, before);
    } else {
      assert v.log + [] == v.log;
    }
  }

  /** One more batch position is kept once if it is new, not at all if it repeats what is cached, and
      in vain otherwise. */
  lemma FoldStep(v: View, sid: string, batch: seq<Event>, tokens: seq<EventId>, before: Store.Commit)
    requires |tokens| == |batch| > 0 && CacheLast(v.cache) <= |v.log| <= |before.log|
    requires before == Store.Committed(v.log, sid, batch[..|batch| - 1], tokens[..|tokens| - 1])
    ensures var prior := Store.Find(before.log, IdAt(batch, tokens, |batch| - 1));
            var c, last := Store.Committed(v.log, sid, batch, tokens), CacheLast(v.cache);
            if prior.Some? then
              c.log == before.log
              && Newer(c.committed, last) == Newer(before.committed, last) + (if prior.value.seqNo > last then [prior.value] else [])
            else
              var e := NewlyStored(sid, batch, tokens, before);
              c.log == before.log + [e] && Newer(c.committed, last) == Newer(before.committed, last) + [e]
  {
    var prior := Store.Find(before.log, IdAt(batch, tokens, |batch| - 1));
    CommittedStep(v.log, sid, batch, tokens, before);
    NewerSnoc(before.committed, if prior.Some? then prior.value else NewlyStored(sid, batch, tokens, before), CacheLast(v.cache));
  }

  /** The events the fold keeps are exactly those the append added if and only if the batch repeats
      no id that is new to the log and none of an event newer than the cache. */
  lemma FoldIsTail(v: View, sid: string, batch: seq<Event>, tokens: seq<EventId>)
    requires Store.Contiguous(v.log, sid) && CacheLast(v.cache) <= |v.log| && |tokens| == |batch|
    ensures var c := Store.Committed(v.log, sid, batch, tokens);
            && AddedBy(v.log, c.log, batch, tokens) && Store.Contiguous(c.log, sid)
            && (c.log == v.log + Newer(c.committed, CacheLast(v.cache)) <==> OwnBatch(v, batch, tokens))
  {
    Store.CommittedContiguous(v.log, sid, batch, tokens);
    AddedByBatch(v.log, sid, batch, tokens);
    FoldKeeps(v, sid, batch, tokens);
  }

  lemma CacheStaysOrdered(v: View, sid: string, more: seq<Event>)
    requires ViewOk(v, sid) && Store.Contiguous(v.log + more, sid)
    ensures Ordered(v.cache + more) && CacheLast(v.cache + more) <= |v.log + more|
  {
    forall k | 0 <= k < |more| ensures more[k].seqNo == |v.log| + k + 1 {
      assert (v.log + more)[|v.log| + k] == more[k];
    }
    forall i | 0 <= i < |v.cache| ensures v.cache[i].seqNo <= |v.log| {
      CachedIsOld(v.cache, v.cache[i]);
    }
  }

  lemma OwnKeeps(v: View, sid: string, batch: seq<Event>, tokens: seq<EventId>)
    requires ViewOk(v, sid) && OwnBatch(v, batch, tokens)
    ensures ViewOk(Take(v, sid, Own(batch, tokens)), sid)
  {
    var c := Store.Committed(v.log, sid, batch, tokens);
    var more := Newer(c.committed, CacheLast(v.cache));
    FoldIsTail(v, sid, batch, tokens);
    CacheStaysOrdered(v, sid, more);
    RelevantConcat(v.cache, more);
    RelevantConcat(v.log, more);
  }

  lemma PastKeeps(v: View, sid: string, e: Event)
    requires ViewOk(v, sid) && !Relevant(e)
    ensures ViewOk(Take(v, sid, Past(e)), sid)
  {
    var stored := Store.Stored(e, sid, |v.log| + 1);
    assert (v.log + [stored])[..|v.log|] == v.log;
  }

  lemma ContiguousIsOrdered(log: seq<Event>, sid: string)
    requires Store.Contiguous(log, sid)
    ensures Ordered(log) && CacheLast(log) <= |log|
  {
  }

  /** In every run of own batches, foreign records and reloads the cache has the log's relevant
      events. */
  lemma {:induction false} CacheHolds(log: seq<Event>, sid: string, writes: seq<Write>)
    requires Store.Contiguous(log, sid)
    ensures ViewOk(Run(log, sid, writes), sid)
  {
    if |writes| == 0 {
      ContiguousIsOrdered(log, sid);
    } else {
      var v, w := Run(log, sid, writes[..|writes| - 1]), writes[|writes| - 1];
      CacheHolds(log, sid, writes[..|writes| - 1]);
      if Allowed(v, w) {
        match w {
          case Own(batch, tokens) => OwnKeeps(v, sid, batch, tokens);
          case Past(e) => PastKeeps(v, sid, e);
          case Reload => ContiguousIsOrdered(v.log, sid);
        }
      }
    }
  }

  /** So the loop projects from its cache what the store's log projects, although the cache misses
      records: in every run, at every point. */
  lemma CacheProjectsLikeStore(log: seq<Event>, sid: string, writes: seq<Write>)
    requires Store.Contiguous(log, sid)
    ensures Project(Run(log, sid, writes).cache) == Project(Run(log, sid, writes).log)
    ensures Messages(Run(log, sid, writes).cache) == Messages(Run(log, sid, writes).log)
  {
    CacheHolds(log, sid, writes);
    SameRelevantProjects(Run(log, sid, writes).cache, Run(log, sid, writes).log);
  }

  /** A batch with one id twice is the reason for the condition: the append stores one event and
      the fold caches it twice. */
  lemma RepeatedIdIsCachedTwice(e: Event, sid: string)
    requires e.id != NoId
    ensures var c := Store.Committed([], sid, [e, e], [e.id, e.id]);
            |c.log| == 1 && |Newer(c.committed, 0)| == 2
  {
    var stored := Store.Stored(e, sid, 1);
    assert [e, e][..1] == [e] && [e][..0] == [] && [e.id, e.id][..1] == [e.id] && [e.id][..0] == [];
    assert Store.Committed([], sid, [e], [e.id]) == Store.Commit([] + [stored], [] + [stored]);
    assert Store.Find([stored], e.id) == Some(stored);
    assert Store.Committed([], sid, [e, e], [e.id, e.id]) == Store.Commit([stored], [stored] + [stored]);
    assert [stored, stored][..1] == [stored] && [stored][..0] == [];
    assert Newer([stored], 0) == [stored];
  }
}
