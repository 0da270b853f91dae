/** Choosing what a compaction replaces (agent/loop.go:2651-2759): the retained tail grows
    backwards until no assistant/result pair straddles it, and skill instructions are protected
    together with everything linked to them. */
module Selection {
  import opened Basics
  import opened Events
  import opened Surface

  /** The visible surface events, in log order. */
  function SurfaceEvents(events: seq<Event>, shadowed: set<nat>): seq<Event> {
    if |events| == 0 then []
    else
      var e := events[|events| - 1];
      SurfaceEvents(events[..|events| - 1], shadowed)
      + (if IsSurface(e.payload) && e.seqNo !in shadowed then [e] else [])
  }

  lemma {:induction false} SurfaceMembers(events: seq<Event>, shadowed: set<nat>)
    ensures forall e :: e in SurfaceEvents(events, shadowed)
              <==> e in events && IsSurface(e.payload) && e.seqNo !in shadowed
  {
    if |events| > 0 {
      var before := events[..|events| - 1];
      assert events == before + [events[|events| - 1]];
      SurfaceMembers(before, shadowed);
    }
  }

  lemma {:induction false} SurfaceOrdered(events: seq<Event>, shadowed: set<nat>)
    requires Ordered(events)
    ensures Ordered(SurfaceEvents(events, shadowed))
  {
    if |events| > 0 {
      var before := events[..|events| - 1];
      SurfaceOrdered(before, shadowed);
      SurfaceMembers(before, shadowed);
      var rest := SurfaceEvents(before, shadowed);
      forall k | 0 <= k < |rest| ensures rest[k].seqNo < events[|events| - 1].seqNo {
        assert rest[k] in before;
      }
    }
  }

  // ---------------------------------------------------------------- protected skill events

  ghost predicate HasSeeds(surface: seq<Event>, p: set<nat>) {
    forall e :: e in surface ==>
      && (e.payload.SkillInvocation? ==> e.seqNo in p)
      && (e.payload.ToolResult? && e.payload.activation ==> e.seqNo in p && SourceSet(e.sources) <= p)
  }

  /** One link of a result to what it answers pulls in the result and everything it answers. */
  ghost predicate LinkHolds(e: Event, p: set<nat>) {
    e.payload.ToolResult? && (e.seqNo in p || SourceSet(e.sources) * p != {}) ==>
      e.seqNo in p && SourceSet(e.sources) <= p
  }

  ghost predicate LinkClosed(surface: seq<Event>, p: set<nat>) {
    forall e :: e in surface ==> LinkHolds(e, p)
  }

  /** The least set with the skill seeds that is closed under result/source links. */
  ghost predicate LeastProtected(surface: seq<Event>, p: set<nat>) {
    && HasSeeds(surface, p)
    && LinkClosed(surface, p)
    && forall q :: HasSeeds(surface, q) && LinkClosed(surface, q) ==> p <= q
  }

  ghost function Mentioned(surface: seq<Event>): set<nat> {
    (set e | e in surface :: e.seqNo) + (set e, s | e in surface && s in e.sources :: s)
  }

  method SkillSeeds(surface: seq<Event>) returns (p: set<nat>)
    ensures HasSeeds(surface, p) && p <= Mentioned(surface)
    ensures forall q :: HasSeeds(surface, q) ==> p <= q
  {
    p := {};
    for i := 0 to |surface|
      invariant forall k :: 0 <= k < i ==>
        && (surface[k].payload.SkillInvocation? ==> surface[k].seqNo in p)
        && (surface[k].payload.ToolResult? && surface[k].payload.activation ==>
              surface[k].seqNo in p && SourceSet(surface[k].sources) <= p)
      invariant p <= Mentioned(surface)
      invariant forall q :: HasSeeds(surface, q) ==> p <= q
    {
      var e := surface[i];
      assert e in surface;
      if e.payload.SkillInvocation? {
        p := p + {e.seqNo};
      }
      if e.payload.ToolResult? && e.payload.activation {
        p := p + {e.seqNo} + SourceSet(e.sources);
      }
    }
  }

  /** One pass of the protection loop. */
  method GrowLinks(surface: seq<Event>, entry: set<nat>) returns (p: set<nat>)
    requires entry <= Mentioned(surface)
    ensures entry <= p <= Mentioned(surface)
    ensures p == entry ==> LinkClosed(surface, p)
    ensures forall q :: entry <= q && LinkClosed(surface, q) ==> p <= q
  {
    p := entry;
    for i := 0 to |surface|
      invariant entry <= p <= Mentioned(surface)
      invariant p == entry ==> forall k :: 0 <= k < i ==> LinkHolds(surface[k], p)
      invariant forall q :: entry <= q && LinkClosed(surface, q) ==> p <= q
    {
      var e := surface[i];
      assert e in surface;
      if e.payload.ToolResult? && (e.seqNo in p || SourceSet(e.sources) * p != {}) {
        forall q | entry <= q && LinkClosed(surface, q)
          ensures p + {e.seqNo} + SourceSet(e.sources) <= q
        {
          assert p <= q && LinkHolds(e, q);
        }
        p := p + {e.seqNo} + SourceSet(e.sources);
      }
    }
  }

  /** `protectedSkillSurfaceSeqs`: grows the seeds until nothing linked is missing. */
  method ProtectedSkillSurface(surface: seq<Event>) returns (p: set<nat>)
    ensures LeastProtected(surface, p)
  {
    p := SkillSeeds(surface);
    var changed := true;
    while changed
      invariant HasSeeds(surface, p) && p <= Mentioned(surface)
      invariant !changed ==> LinkClosed(surface, p)
      invariant forall q :: HasSeeds(surface, q) && LinkClosed(surface, q) ==> p <= q
      decreases |Mentioned(surface) - p|, changed
    {
      var grown := GrowLinks(surface, p);
      changed := grown != p;
      if changed {
        SubsetSize(Mentioned(surface) - grown, Mentioned(surface) - p);
      }
      p := grown;
    }
  }

  // ---------------------------------------------------------------- the cut

  /** Retaining position `i` requires retaining position `j`. */
  ghost predicate Needs(surface: seq<Event>, i: nat, j: nat)
    requires i < |surface| && j < |surface|
  {
    || (surface[i].payload.ToolResult? && surface[j].seqNo in surface[i].sources)
    || (surface[i].payload.AssistantMessage? && surface[j].payload.ToolResult? && surface[j].call in surface[i].payload.calls)
  }

  ghost predicate PairClosed(surface: seq<Event>, cut: nat) {
    forall i, j :: 0 <= cut <= i < |surface| && 0 <= j < |surface| && Needs(surface, i, j) ==> cut <= j
  }

  /** The longest verbatim tail cut at or before `start` that splits no call from its results. */
  ghost predicate GreatestCut(surface: seq<Event>, start: nat, cut: nat) {
    && cut <= start
    && PairClosed(surface, cut)
    && forall c: nat :: c <= start && PairClosed(surface, c) ==> c <= cut
  }

  method SurfaceIndex(surface: seq<Event>, seqNo: nat) returns (index: int)
    requires Ordered(surface)
    ensures index < 0 ==> forall k :: 0 <= k < |surface| ==> surface[k].seqNo != seqNo
    ensures index >= 0 ==> index < |surface| && surface[index].seqNo == seqNo
  {
    for i := 0 to |surface|
      invariant forall k :: 0 <= k < i ==> surface[k].seqNo != seqNo
    {
      if surface[i].seqNo == seqNo {
        return i;
      }
    }
    return -1;
  }

  /** Moves the cut before everything one retained event needs. */
  method ExpandFor(surface: seq<Event>, start: nat, from: nat, at: nat, current: nat) returns (cut: nat)
    requires Ordered(surface) && current <= from <= at < |surface| && from <= start
    requires forall c: nat :: c <= start && PairClosed(surface, c) ==> c <= current
    ensures cut <= current
    ensures forall j :: 0 <= j < |surface| && Needs(surface, at, j) ==> cut <= j
    ensures forall c: nat :: c <= start && PairClosed(surface, c) ==> c <= cut
  {
    cut := current;
    var e := surface[at];
    if e.payload.ToolResult? {
      for s := 0 to |e.sources|
        invariant cut <= current
        invariant forall j :: 0 <= j < |surface| && surface[j].seqNo in e.sources[..s] ==> cut <= j
        invariant forall c: nat :: c <= start && PairClosed(surface, c) ==> c <= cut
      {
        var index := SurfaceIndex(surface, e.sources[s]);
        if index >= 0 {
          assert Needs(surface, at, index);
          if index < cut {
            cut := index;
          }
        }
        assert e.sources[..s + 1] == e.sources[..s] + [e.sources[s]];
      }
      assert e.sources[..|e.sources|] == e.sources;
    }
    if e.payload.AssistantMessage? {
      var calls := e.payload.calls;
      for s := 0 to |calls|
        invariant cut <= current
        invariant forall j :: 0 <= j < |surface| && surface[j].payload.ToolResult? && surface[j].call in calls[..s] ==> cut <= j
        invariant forall c: nat :: c <= start && PairClosed(surface, c) ==> c <= cut
      {
        for k := 0 to |surface|
          invariant cut <= current
          invariant forall j :: 0 <= j < |surface| && surface[j].payload.ToolResult? && surface[j].call in calls[..s] ==> cut <= j
          invariant forall j :: 0 <= j < k && surface[j].payload.ToolResult? && surface[j].call == calls[s] ==> cut <= j
          invariant forall c: nat :: c <= start && PairClosed(surface, c) ==> c <= cut
        {
          if surface[k].payload.ToolResult? && surface[k].call == calls[s] && k < from {
            assert Needs(surface, at, k);
            if k < cut {
              cut := k;
            }
          }
        }
        assert calls[..s + 1] == calls[..s] + [calls[s]];
      }
      assert calls[..|calls|] == calls;
    }
  }

  /** The cut loop of `shadowedSeqsRetainingTail` (agent/loop.go:2672-2709). */
  method ExpandCut(surface: seq<Event>, start: nat) returns (cut: nat)
    requires Ordered(surface) && start <= |surface|
    ensures GreatestCut(surface, start, cut)
  {
    cut := start;
    var changed := true;
    while changed
      invariant cut <= start
      invariant !changed ==> PairClosed(surface, cut)
      invariant forall c: nat :: c <= start && PairClosed(surface, c) ==> c <= cut
      decreases cut, changed
    {
      changed := false;
      var from := cut;
      for i := from to |surface|
        invariant cut <= from
        invariant changed <==> cut < from
        invariant forall k, j :: from <= k < i && 0 <= j < |surface| && Needs(surface, k, j) ==> cut <= j
        invariant forall c: nat :: c <= start && PairClosed(surface, c) ==> c <= cut
      {
        var moved := ExpandFor(surface, start, from, i, cut);
        if moved < cut {
          changed := true;
        }
        cut := moved;
      }
    }
  }

  // ---------------------------------------------------------------- the selection

  /** The sequences of an unprotected prefix. */
  function Unprotected(prefix: seq<Event>, p: set<nat>): seq<nat> {
    if |prefix| == 0 then []
    else
      var e := prefix[|prefix| - 1];
      Unprotected(prefix[..|prefix| - 1], p) + (if e.seqNo in p then [] else [e.seqNo])
  }

  lemma {:induction false} UnprotectedMembers(prefix: seq<Event>, p: set<nat>)
    ensures forall x :: x in Unprotected(prefix, p) <==> x !in p && exists k :: 0 <= k < |prefix| && prefix[k].seqNo == x
  {
    if |prefix| > 0 {
      var before := prefix[..|prefix| - 1];
      UnprotectedMembers(before, p);
      forall x | x in Unprotected(prefix, p)
        ensures x !in p && exists k :: 0 <= k < |prefix| && prefix[k].seqNo == x
      {
        if x in Unprotected(before, p) {
          var k :| 0 <= k < |before| && before[k].seqNo == x;
          assert prefix[k].seqNo == x;
        }
      }
      forall x | x !in p && exists k :: 0 <= k < |prefix| && prefix[k].seqNo == x
        ensures x in Unprotected(prefix, p)
      {
        var k :| 0 <= k < |prefix| && prefix[k].seqNo == x;
        if k < |before| { assert before[k].seqNo == x; }
      }
    }
  }

  /** The selected sequences are positive and increasing, hence valid compaction sources. */
  lemma {:induction false} UnprotectedOrdered(prefix: seq<Event>, p: set<nat>)
    requires Ordered(prefix)
    ensures forall i, j :: 0 <= i < j < |Unprotected(prefix, p)| ==> Unprotected(prefix, p)[i] < Unprotected(prefix, p)[j]
    ensures forall i :: 0 <= i < |Unprotected(prefix, p)| ==> Unprotected(prefix, p)[i] > 0
  {
    if |prefix| > 0 {
      var before := prefix[..|prefix| - 1];
      UnprotectedOrdered(before, p);
      UnprotectedMembers(before, p);
      var rest := Unprotected(before, p);
      forall k | 0 <= k < |rest| ensures rest[k] < prefix[|prefix| - 1].seqNo {
        assert rest[k] in rest;
      }
    }
  }

  function RetainedCount(retain: int, n: nat): int {
    if retain >= n then n - 1 else retain
  }

  /** What a compaction of `events` may replace, keeping `retain` newest surface events: nothing
      when no event could be retained, and otherwise the unprotected part before the greatest
      pair-closed cut. */
  ghost predicate IsSelection(events: seq<Event>, retain: int, shadowed: set<nat>, out: seq<nat>) {
    var surface := SurfaceEvents(events, shadowed);
    var kept := RetainedCount(retain, |surface|);
    if kept < 1 || |surface| <= kept then out == []
    else SelectedFrom(surface, |surface| - kept, out)
  }

  ghost predicate SelectedFrom(surface: seq<Event>, start: nat, out: seq<nat>) {
    exists cut: nat, p: set<nat> :: SelectedBy(surface, start, cut, p, out)
  }

  ghost predicate SelectedBy(surface: seq<Event>, start: nat, cut: nat, p: set<nat>, out: seq<nat>) {
    && start <= |surface|
    && GreatestCut(surface, start, cut)
    && LeastProtected(surface, p)
    && out == Unprotected(surface[..cut], p)
  }

  /** `shadowedSeqsRetainingTail` (agent/loop.go:2651-2719). */
  method ShadowedSeqsRetainingTail(events: seq<Event>, retain: int, shadowed: set<nat>) returns (out: seq<nat>)
    requires Ordered(events)
    ensures IsSelection(events, retain, shadowed, out)
  {
    var surface := SurfaceEvents(events, shadowed);
    SurfaceOrdered(events, shadowed);
    var p := ProtectedSkillSurface(surface);
    var kept := RetainedCount(retain, |surface|);
    if kept < 1 || |surface| <= kept {
      return [];
    }
    var cut := ExpandCut(surface, |surface| - kept);
    out := Unprotected(surface[..cut], p);
    assert SelectedBy(surface, |surface| - kept, cut, p, out);
  }

  // ---------------------------------------------------------------- logs without calls

  lemma Unpaired(surface: seq<Event>, cut: nat, p: set<nat>)
    requires forall e :: e in surface ==> !e.payload.ToolResult? && !e.payload.AssistantMessage?
    ensures PairClosed(surface, cut) && LinkClosed(surface, p)
  {
    assert forall i :: 0 <= i < |surface| ==> surface[i] in surface;
  }

  lemma SurfaceSnoc(events: seq<Event>, e: Event, shadowed: set<nat>)
    ensures SurfaceEvents(events + [e], shadowed)
         == SurfaceEvents(events, shadowed) + (if IsSurface(e.payload) && e.seqNo !in shadowed then [e] else [])
  {
    assert (events + [e])[..|events|] == events;
  }

  lemma UnprotectedSnoc(events: seq<Event>, e: Event, p: set<nat>)
    ensures Unprotected(events + [e], p) == Unprotected(events, p) + (if e.seqNo in p then [] else [e.seqNo])
  {
    assert (events + [e])[..|events|] == events;
  }
}
