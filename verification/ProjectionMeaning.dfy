/** What the parts of a projection are, read off the log itself: which result and which message the
    pairing check compares, what sealed transactions add up to, which nodes a log has and what the
    model reads of them (session/surface.go:146-168, session/surface.go:325-423,
    session/surface.go:713-757). */
module ProjectionMeaning {
  import opened Events
  import opened Surface
  import opened ProjectionLemmas
  import opened CompactionTheorems

  // ---------------------------------------------------------------- pairing

  ghost predicate IsLastResult(events: seq<Event>, call: string, i: nat) {
    && i < |events| && events[i].payload.ToolResult? && events[i].call == call
    && forall j :: i < j < |events| && events[j].payload.ToolResult? ==> events[j].call != call
  }

  lemma NoNewResult(events: seq<Event>, call: string, i: nat)
    requires |events| > 0 && !(events[|events| - 1].payload.ToolResult? && events[|events| - 1].call == call)
    ensures IsLastResult(events, call, i) <==> IsLastResult(events[..|events| - 1], call, i)
  {
    var before := events[..|events| - 1];
    assert forall j :: 0 <= j < |before| ==> before[j] == events[j];
  }

  /** The result the pairing check looks at is the newest one of the call. */
  lemma {:induction false} LastResultExactly(events: seq<Event>, call: string, x: nat)
    ensures LastResult(events, call) == Some(x) <==> exists i: nat :: IsLastResult(events, call, i) && events[i].seqNo == x
    ensures LastResult(events, call) == None <==> forall i :: 0 <= i < |events| && events[i].payload.ToolResult? ==> events[i].call != call
  {
    if |events| > 0 {
      var before, last := events[..|events| - 1], |events| - 1;
      LastResultExactly(before, call, x);
      assert forall i :: 0 <= i < |before| ==> before[i] == events[i];
      if events[last].payload.ToolResult? && events[last].call == call {
        assert IsLastResult(events, call, last);
        forall i: nat | IsLastResult(events, call, i) ensures i == last {}
      } else {
        forall i: nat ensures IsLastResult(events, call, i) <==> IsLastResult(before, call, i) { NoNewResult(events, call, i); }
      }
    }
  }

  predicate Carries(e: Event, call: string) { e.payload.AssistantMessage? && call in e.payload.calls }

  ghost predicate IsLastCarrier(events: seq<Event>, call: string, i: nat) {
    i < |events| && Carries(events[i], call) && forall j :: i < j < |events| ==> !Carries(events[j], call)
  }

  lemma NoNewCarrier(events: seq<Event>, call: string, i: nat)
    requires |events| > 0 && !Carries(events[|events| - 1], call)
    ensures IsLastCarrier(events, call, i) <==> IsLastCarrier(events[..|events| - 1], call, i)
  {
    var before := events[..|events| - 1];
    assert forall j :: 0 <= j < |before| ==> before[j] == events[j];
  }

  /** The message a result without sources answers is the newest one that carries its call. */
  lemma {:induction false} LastAssistantExactly(events: seq<Event>, call: string, x: nat)
    ensures LastAssistant(events, call) == Some(x) <==> exists i: nat :: IsLastCarrier(events, call, i) && events[i].seqNo == x
    ensures LastAssistant(events, call) == None <==> forall i :: 0 <= i < |events| ==> !Carries(events[i], call)
  {
    if |events| > 0 {
      var before, last := events[..|events| - 1], |events| - 1;
      LastAssistantExactly(before, call, x);
      assert forall i :: 0 <= i < |before| ==> before[i] == events[i];
      if Carries(events[last], call) {
        assert IsLastCarrier(events, call, last);
        forall i: nat | IsLastCarrier(events, call, i) ensures i == last {}
      } else {
        forall i: nat ensures IsLastCarrier(events, call, i) <==> IsLastCarrier(before, call, i) { NoNewCarrier(events, call, i); }
      }
    }
  }

  /** A visible message whose call has its newest result hidden. */
  ghost predicate LosesResult(events: seq<Event>, shadowed: set<nat>, i: nat, call: string, j: nat) {
    && i < |events| && Carries(events[i], call) && call != "" && events[i].seqNo !in shadowed
    && IsLastResult(events, call, j) && events[j].seqNo in shadowed
  }

  /** A visible result of which a source is hidden, or which records none and whose call's newest
      message is hidden. */
  ghost predicate LosesCall(events: seq<Event>, shadowed: set<nat>, i: nat) {
    && i < |events| && events[i].payload.ToolResult? && events[i].seqNo !in shadowed
    && ((exists s :: s in events[i].sources && s in shadowed)
        || (events[i].sources == [] && events[i].call != ""
            && exists j: nat :: IsLastCarrier(events, events[i].call, j) && events[j].seqNo in shadowed))
  }

  lemma ResultLost(events: seq<Event>, shadowed: set<nat>, call: string)
    ensures LastResult(events, call).Some? && LastResult(events, call).value in shadowed
       <==> exists j: nat :: IsLastResult(events, call, j) && events[j].seqNo in shadowed
  {
    if LastResult(events, call).Some? { LastResultExactly(events, call, LastResult(events, call).value); }
    forall j: nat | IsLastResult(events, call, j) ensures LastResult(events, call) == Some(events[j].seqNo) {
      LastResultExactly(events, call, events[j].seqNo);
    }
  }

  lemma CarrierLost(events: seq<Event>, shadowed: set<nat>, call: string)
    ensures LastAssistant(events, call).Some? && LastAssistant(events, call).value in shadowed
       <==> exists j: nat :: IsLastCarrier(events, call, j) && events[j].seqNo in shadowed
  {
    if LastAssistant(events, call).Some? { LastAssistantExactly(events, call, LastAssistant(events, call).value); }
    forall j: nat | IsLastCarrier(events, call, j) ensures LastAssistant(events, call) == Some(events[j].seqNo) {
      LastAssistantExactly(events, call, events[j].seqNo);
    }
  }

  lemma CallLost(events: seq<Event>, shadowed: set<nat>, i: nat)
    requires i < |events| && events[i].payload.ToolResult? && events[i].seqNo !in shadowed
    ensures LosesCall(events, shadowed, i) <==> !(ResultSources(events, events[i]) !! shadowed)
  {
    var e := events[i];
    CarrierLost(events, shadowed, e.call);
    if e.sources != [] {
      assert ResultSources(events, e) == SourceSet(e.sources);
      if exists s :: s in e.sources && s in shadowed {
        var s :| s in e.sources && s in shadowed;
        assert s in SourceSet(e.sources);
      }
    } else if e.call != "" && LastAssistant(events, e.call).Some? {
      assert LastAssistant(events, e.call).value in ResultSources(events, e);
    }
  }

  /** Hiding keeps call and result together exactly when no visible message loses the newest result of
      one of its calls and no visible result loses what it answers. */
  lemma PairingExactly(events: seq<Event>, shadowed: set<nat>)
    ensures CallsKeepResults(events, shadowed) <==> !exists i: nat, call, j: nat :: LosesResult(events, shadowed, i, call, j)
    ensures ResultsKeepSources(events, shadowed) <==> !exists i: nat :: LosesCall(events, shadowed, i)
  {
    forall call ensures LastResult(events, call).Some? && LastResult(events, call).value in shadowed
                   <==> exists j: nat :: IsLastResult(events, call, j) && events[j].seqNo in shadowed
    {
      ResultLost(events, shadowed, call);
    }
    forall i: nat, call | i < |events| && events[i].payload.AssistantMessage? && call in events[i].payload.calls && call != ""
                       && events[i].seqNo !in shadowed && LastResult(events, call).Some? && LastResult(events, call).value in shadowed
      ensures exists j: nat :: LosesResult(events, shadowed, i, call, j)
    {
      var j: nat :| IsLastResult(events, call, j) && events[j].seqNo in shadowed;
      assert LosesResult(events, shadowed, i, call, j);
    }
    forall i: nat, call, j: nat | LosesResult(events, shadowed, i, call, j) ensures !CallsKeepResults(events, shadowed) {
      assert call in events[i].payload.calls;
    }
    forall i: nat | i < |events| && events[i].payload.ToolResult? && events[i].seqNo !in shadowed
      ensures LosesCall(events, shadowed, i) <==> !(ResultSources(events, events[i]) !! shadowed)
    {
      CallLost(events, shadowed, i);
    }
  }

  // ---------------------------------------------------------------- what transactions add up to

  /** No positive generation is followed by a smaller one. */
  ghost predicate NeverRegress(rs: seq<Replacement>) {
    forall i, j :: 0 <= i < j < |rs| && rs[j].generation > 0 ==> rs[i].generation <= rs[j].generation
  }

  /** `v` is the newest entry of `vs` other than `none`, if there is one. */
  ghost predicate Newest<T>(vs: seq<T>, none: T, v: T) {
    if v == none then forall i :: 0 <= i < |vs| ==> vs[i] == none
    else exists i :: 0 <= i < |vs| && vs[i] == v && forall j :: i < j < |vs| ==> vs[j] == none
  }

  lemma NewestSnoc<T>(vs: seq<T>, none: T, v: T, next: T)
    requires Newest(vs, none, v)
    ensures Newest(vs + [next], none, if next == none then v else next)
  {
    var more := vs + [next];
    assert forall i :: 0 <= i < |vs| ==> more[i] == vs[i];
    assert more[|vs|] == next;
    if next == none && v != none {
      var i :| 0 <= i < |vs| && vs[i] == v && forall j :: i < j < |vs| ==> vs[j] == none;
      assert more[i] == v;
    }
  }

  function Generations(rs: seq<Replacement>): seq<nat> { seq(|rs|, i requires 0 <= i < |rs| => rs[i].generation) }

  function Fingerprints(rs: seq<Replacement>): seq<string> { seq(|rs|, i requires 0 <= i < |rs| => rs[i].fingerprint) }

  ghost predicate AddsUpTo(rs: seq<Replacement>, m: Meta) {
    && Newest(Generations(rs), 0, m.generation) && Newest(Fingerprints(rs), "", m.fingerprint)
    && m.summary == (if |rs| == 0 then "" else rs[|rs| - 1].summary)
    && forall x :: x in m.shadowed <==> exists i :: 0 <= i < |rs| && x in rs[i].sourceSeqs
  }

  lemma AddsOne(rs: seq<Replacement>, m: Meta)
    requires |rs| > 0 && AddsUpTo(rs[..|rs| - 1], m)
    ensures ApplyOne(m, rs[|rs| - 1]).Ok? ==> AddsUpTo(rs, ApplyOne(m, rs[|rs| - 1]).value)
  {
    var before, r := rs[..|rs| - 1], rs[|rs| - 1];
    assert Generations(rs) == Generations(before) + [r.generation];
    assert Fingerprints(rs) == Fingerprints(before) + [r.fingerprint];
    NewestSnoc(Generations(before), 0, m.generation, r.generation);
    NewestSnoc(Fingerprints(before), "", m.fingerprint, r.fingerprint);
    forall x ensures x in m.shadowed + SourceSet(r.sourceSeqs) <==> exists i :: 0 <= i < |rs| && x in rs[i].sourceSeqs {
      if x in m.shadowed {
        var i :| 0 <= i < |before| && x in before[i].sourceSeqs;
        assert x in rs[i].sourceSeqs;
      }
      if i :| 0 <= i < |rs| && x in rs[i].sourceSeqs && i < |before| {
        assert x in before[i].sourceSeqs;
      }
    }
  }

  /** With generations that never regress the newest positive one bounds the others. */
  lemma NewestBounds(rs: seq<Replacement>, g: nat)
    requires NeverRegress(rs) && Newest(Generations(rs), 0, g)
    ensures forall i :: 0 <= i < |rs| ==> rs[i].generation <= g
    ensures g > 0 ==> exists i :: 0 <= i < |rs| && rs[i].generation == g
  {
    var gs := Generations(rs);
    assert forall i :: 0 <= i < |rs| ==> gs[i] == rs[i].generation;
    if g > 0 {
      var k :| 0 <= k < |gs| && gs[k] == g && forall j :: k < j < |gs| ==> gs[j] == 0;
      assert rs[k].generation == g;
    }
  }

  lemma RegressSnoc(rs: seq<Replacement>, g: nat)
    requires |rs| > 0 && NeverRegress(rs[..|rs| - 1]) && Newest(Generations(rs[..|rs| - 1]), 0, g)
    ensures NeverRegress(rs) <==> !(0 < rs[|rs| - 1].generation < g)
  {
    var before, r := rs[..|rs| - 1], rs[|rs| - 1];
    NewestBounds(before, g);
    assert forall i :: 0 <= i < |before| ==> before[i] == rs[i];
    if 0 < r.generation < g {
      var i :| 0 <= i < |before| && before[i].generation == g;
      assert rs[i].generation == g;
    }
  }

  /** Sealed transactions apply if and only if no generation regresses; together they shadow all their
      sources and leave the newest generation, summary and fingerprint. */
  lemma {:induction false} ApplyExactly(rs: seq<Replacement>)
    ensures ApplyAll(rs).Ok? <==> NeverRegress(rs)
    ensures ApplyAll(rs).Ok? ==> AddsUpTo(rs, ApplyAll(rs).value)
  {
    if |rs| > 0 {
      var before := rs[..|rs| - 1];
      ApplyExactly(before);
      assert forall i :: 0 <= i < |before| ==> before[i] == rs[i];
      if ApplyAll(before).Ok? {
        RegressSnoc(rs, ApplyAll(before).value.generation);
        AddsOne(rs, ApplyAll(before).value);
      }
    }
  }

  // ---------------------------------------------------------------- the nodes of a log

  /** The event has a place in the node list: a surface event that is no superseded catalog and, for a
      replacement, sealed. */
  predicate HasPlace(e: Event, latest: nat, replaced: set<nat>, done: map<nat, Replacement>) {
    && IsSurface(e.payload)
    && (e.payload.SkillCatalog? ==> e.seqNo == latest || e.seqNo in replaced)
    && (e.payload.SurfaceReplacement? ==> e.seqNo in done)
  }

  /** What the model reads in that place. */
  predicate Reads(messages: seq<Message>, e: Event, done: map<nat, Replacement>) {
    match e.payload
    case SurfaceReplacement(_, _, _, _, _) => e.seqNo in done && messages == [Message(User, [done[e.seqNo].summary])]
    case AssistantMessage(text, reasoning, _) => |messages| == 1 && messages[0].role == Assistant && messages[0].parts == [reasoning, text]
    case ToolResult(output, _, contexts, _) => |messages| == 1 + |contexts| && messages[0] == Message(Tool, [output]) && messages[1..] == contexts
    case ContextSnapshot(text) => messages == [Message(System, [text])]
    case UserMessage(text) => messages == [Message(User, [text])]
    case SteeringMessage(text) => messages == [Message(User, [text])]
    case InjectedContext(text) => messages == [Message(User, [text])]
    case SkillCatalog(text) => messages == [Message(User, [text])]
    case SkillInvocation(text) => messages == [Message(User, [text])]
    case _ => false
  }

  /** Replacements apart, the model reads something of an event exactly when it belongs to the surface. */
  lemma SurfaceIsRead(e: Event)
    requires !e.payload.SurfaceReplacement?
    ensures IsSurface(e.payload) <==> Reads(Render(e.payload), e, map[])
    ensures Render(e.payload) != [] <==> IsSurface(e.payload)
  {
  }

  ghost predicate NodeIn(nodes: seq<Node>, e: Event, done: map<nat, Replacement>) {
    exists n :: n in nodes && n.seqNo == e.seqNo && Reads(n.messages, e, done)
  }

  ghost predicate Increasing(nodes: seq<Node>) { forall i, j :: 0 <= i < j < |nodes| ==> nodes[i].seqNo < nodes[j].seqNo }

  ghost predicate OnlyPlaces(nodes: seq<Node>, events: seq<Event>, latest: nat, replaced: set<nat>, done: map<nat, Replacement>) {
    forall n :: n in nodes ==> PlaceOf(n, events, latest, replaced, done)
  }

  ghost predicate PlaceOf(n: Node, events: seq<Event>, latest: nat, replaced: set<nat>, done: map<nat, Replacement>) {
    exists e :: e in events && e.seqNo == n.seqNo && HasPlace(e, latest, replaced, done)
  }

  ghost predicate AllPlaces(nodes: seq<Node>, events: seq<Event>, latest: nat, replaced: set<nat>, done: map<nat, Replacement>) {
    forall e :: e in events && HasPlace(e, latest, replaced, done) ==> NodeIn(nodes, e, done)
  }

  lemma PlaceStays(n: Node, before: seq<Event>, last: Event, latest: nat, replaced: set<nat>, done: map<nat, Replacement>)
    requires PlaceOf(n, before, latest, replaced, done) || (last.seqNo == n.seqNo && HasPlace(last, latest, replaced, done))
    ensures PlaceOf(n, before + [last], latest, replaced, done)
  {
    var all := before + [last];
    if PlaceOf(n, before, latest, replaced, done) {
      var e :| e in before && e.seqNo == n.seqNo && HasPlace(e, latest, replaced, done);
      assert e in all;
    } else {
      assert all[|before|] == last;
    }
  }

  /** The nodes built for a log stand in log order, one for every event that has a place, with what the
      model reads of it. */
  lemma {:induction false} BuiltExactly(events: seq<Event>, latest: nat, replaced: set<nat>, done: map<nat, Replacement>)
    requires Ordered(events)
    ensures var nodes := BuildNodes(events, latest, replaced, done);
            Increasing(nodes) && OnlyPlaces(nodes, events, latest, replaced, done) && AllPlaces(nodes, events, latest, replaced, done)
  {
    if |events| > 0 {
      var before, last := events[..|events| - 1], events[|events| - 1];
      assert events == before + [last];
      BuiltExactly(before, latest, replaced, done);
      NodesOfOne(last, latest, replaced, done);
      BuiltOneMore(before, last, BuildNodes(before, latest, replaced, done), NodesOf(last, latest, replaced, done), latest, replaced, done);
    }
  }

  lemma EarlierPlace(n: Node, before: seq<Event>, last: Event, latest: nat, replaced: set<nat>, done: map<nat, Replacement>)
    requires Ordered(before + [last]) && PlaceOf(n, before, latest, replaced, done)
    ensures n.seqNo < last.seqNo
  {
    var e :| e in before && e.seqNo == n.seqNo;
    var k :| 0 <= k < |before| && before[k] == e;
    assert (before + [last])[k] == e && (before + [last])[|before|] == last;
  }

  predicate IsPlace(more: seq<Node>, e: Event, latest: nat, replaced: set<nat>, done: map<nat, Replacement>) {
    if HasPlace(e, latest, replaced, done) then |more| == 1 && more[0].seqNo == e.seqNo && Reads(more[0].messages, e, done) else more == []
  }

  lemma BuiltOneMore(before: seq<Event>, last: Event, rest: seq<Node>, more: seq<Node>, latest: nat, replaced: set<nat>, done: map<nat, Replacement>)
    requires Ordered(before + [last]) && IsPlace(more, last, latest, replaced, done)
    requires Increasing(rest) && OnlyPlaces(rest, before, latest, replaced, done) && AllPlaces(rest, before, latest, replaced, done)
    ensures Increasing(rest + more) && OnlyPlaces(rest + more, before + [last], latest, replaced, done)
    ensures AllPlaces(rest + more, before + [last], latest, replaced, done)
  {
    forall i | 0 <= i < |rest| ensures rest[i].seqNo < last.seqNo {
      EarlierPlace(rest[i], before, last, latest, replaced, done);
    }
    IncreasingSnoc(rest, more, last.seqNo);
    PlacesGrow(before, last, rest, more, latest, replaced, done);
    AllPlacesGrow(before, last, rest, more, latest, replaced, done);
  }

  lemma IncreasingSnoc(rest: seq<Node>, more: seq<Node>, at: nat)
    requires Increasing(rest) && |more| <= 1 && (|more| == 1 ==> more[0].seqNo == at) && forall i :: 0 <= i < |rest| ==> rest[i].seqNo < at
    ensures Increasing(rest + more)
  {
  }

  lemma AllPlacesGrow(before: seq<Event>, last: Event, rest: seq<Node>, more: seq<Node>, latest: nat, replaced: set<nat>, done: map<nat, Replacement>)
    requires IsPlace(more, last, latest, replaced, done) && AllPlaces(rest, before, latest, replaced, done)
    ensures AllPlaces(rest + more, before + [last], latest, replaced, done)
  {
    forall e | e in before + [last] && HasPlace(e, latest, replaced, done) ensures NodeIn(rest + more, e, done) {
      assert e in before || e == last;
      NodeStays(rest, more, e, last, done);
    }
  }

  lemma PlacesGrow(before: seq<Event>, last: Event, rest: seq<Node>, more: seq<Node>, latest: nat, replaced: set<nat>, done: map<nat, Replacement>)
    requires IsPlace(more, last, latest, replaced, done) && OnlyPlaces(rest, before, latest, replaced, done)
    ensures OnlyPlaces(rest + more, before + [last], latest, replaced, done)
  {
    forall n | n in rest + more ensures PlaceOf(n, before + [last], latest, replaced, done) {
      PlaceStays(n, before, last, latest, replaced, done);
    }
  }

  lemma NodesOfOne(e: Event, latest: nat, replaced: set<nat>, done: map<nat, Replacement>)
    ensures IsPlace(NodesOf(e, latest, replaced, done), e, latest, replaced, done)
  {
  }

  lemma NodeStays(rest: seq<Node>, more: seq<Node>, e: Event, last: Event, done: map<nat, Replacement>)
    requires NodeIn(rest, e, done) || (e == last && |more| == 1 && more[0].seqNo == e.seqNo && Reads(more[0].messages, e, done))
    ensures NodeIn(rest + more, e, done)
  {
    if NodeIn(rest, e, done) {
      var n :| n in rest && n.seqNo == e.seqNo && Reads(n.messages, e, done);
      assert n in rest + more;
    } else {
      assert more[0] in rest + more;
    }
  }

  /** The model reads an uncompacted conversation whole and in log order. */
  lemma PlainLogIsReadWhole(events: seq<Event>)
    requires Ordered(events) && Uncompacted(events) && ValidPairing(events, {})
    ensures Project(events).Ok? && Messages(events).Ok?
    ensures var nodes := Project(events).value.nodes;
            && InNodeOrder(Messages(events).value, nodes) && Increasing(nodes)
            && OnlyPlaces(nodes, events, LatestCatalog(events, {}), {}, map[])
            && AllPlaces(nodes, events, LatestCatalog(events, {}), {}, map[])
  {
    UncompactedProjects(events);
    var latest := LatestCatalog(events, {});
    BuiltExactly(events, latest, {}, map[]);
    var raw := BuildNodes(events, latest, {}, map[]);
    WithoutNothing(raw, {});
    FlattenInOrder(Project(events).value.nodes);
  }
}
