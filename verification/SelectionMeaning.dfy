/** What a selection takes, said by the events of the surface (agent/loop.go:2651-2759): protection
    spreads along results and their sources from a skill invocation or an activation result, and
    everything else before the cut is selected. */
module SelectionMeaning {
  import opened Events
  import opened Surface
  import opened Selection

  // ---------------------------------------------------------------- protection by paths

  /** `x` and `y` belong to one result of the surface: its own number or one of its sources. */
  ghost predicate Linked(surface: seq<Event>, x: nat, y: nat) {
    exists e :: e in surface && e.payload.ToolResult? && x in {e.seqNo} + SourceSet(e.sources) && y in {e.seqNo} + SourceSet(e.sources)
  }

  /** Where protection starts: a skill invocation, or a result that activated a skill with what it
      answers. */
  ghost predicate Starts(surface: seq<Event>, x: nat) {
    || (exists e :: e in surface && e.payload.SkillInvocation? && e.seqNo == x)
    || (exists e :: e in surface && e.payload.ToolResult? && e.payload.activation && x in {e.seqNo} + SourceSet(e.sources))
  }

  ghost predicate Path(surface: seq<Event>, path: seq<nat>, x: nat) {
    && |path| > 0 && Starts(surface, path[0]) && path[|path| - 1] == x
    && forall k :: 0 < k < |path| ==> Linked(surface, path[k - 1], path[k])
  }

  ghost predicate Protected(surface: seq<Event>, x: nat) { exists path :: Path(surface, path, x) }

  lemma PathGrows(surface: seq<Event>, path: seq<nat>, x: nat, y: nat)
    requires Path(surface, path, x) && Linked(surface, x, y)
    ensures Protected(surface, y)
  {
    var longer := path + [y];
    forall k | 0 < k < |longer| ensures Linked(surface, longer[k - 1], longer[k]) {
      if k == |path| { assert longer[k - 1] == x; } else { assert longer[k - 1] == path[k - 1] && longer[k] == path[k]; }
    }
    assert Path(surface, longer, y);
  }

  lemma {:induction false} PathStaysInside(surface: seq<Event>, p: set<nat>, path: seq<nat>, x: nat)
    requires HasSeeds(surface, p) && LinkClosed(surface, p) && Path(surface, path, x)
    ensures x in p
  {
    if |path| == 1 {
      StartsInside(surface, p, x);
    } else {
      var shorter := path[..|path| - 1];
      forall k | 0 < k < |shorter| ensures Linked(surface, shorter[k - 1], shorter[k]) {
        assert Linked(surface, path[k - 1], path[k]);
      }
      assert Path(surface, shorter, shorter[|shorter| - 1]);
      PathStaysInside(surface, p, shorter, shorter[|shorter| - 1]);
      assert Linked(surface, path[|path| - 2], path[|path| - 1]);
      LinkStaysInside(surface, p, shorter[|shorter| - 1], x);
    }
  }

  lemma StartsInside(surface: seq<Event>, p: set<nat>, x: nat)
    requires HasSeeds(surface, p) && Starts(surface, x)
    ensures x in p
  {
  }

  lemma LinkStaysInside(surface: seq<Event>, p: set<nat>, x: nat, y: nat)
    requires LinkClosed(surface, p) && x in p && Linked(surface, x, y)
    ensures y in p
  {
    var e :| e in surface && e.payload.ToolResult? && x in {e.seqNo} + SourceSet(e.sources) && y in {e.seqNo} + SourceSet(e.sources);
    assert LinkHolds(e, p);
    if x != e.seqNo { assert x in SourceSet(e.sources) * p; }
  }

  lemma StartIsPath(surface: seq<Event>, x: nat)
    requires Starts(surface, x)
    ensures Protected(surface, x)
  {
    assert Path(surface, [x], x);
  }

  lemma MentionedHolds(surface: seq<Event>, e: Event, x: nat)
    requires e in surface && x in {e.seqNo} + SourceSet(e.sources)
    ensures x in Mentioned(surface)
  {
  }

  /** The protected numbers form a set that meets both demands on one. */
  lemma PathsSuffice(surface: seq<Event>) returns (q: set<nat>)
    ensures HasSeeds(surface, q) && LinkClosed(surface, q)
    ensures forall x :: x in q ==> Protected(surface, x)
  {
    q := set x | x in Mentioned(surface) && Protected(surface, x);
    forall e | e in surface && e.payload.SkillInvocation? ensures e.seqNo in q {
      StartIsPath(surface, e.seqNo);
      MentionedHolds(surface, e, e.seqNo);
    }
    forall e, x | e in surface && e.payload.ToolResult? && e.payload.activation && x in {e.seqNo} + SourceSet(e.sources)
      ensures x in q
    {
      StartIsPath(surface, x);
      MentionedHolds(surface, e, x);
    }
    forall e | e in surface ensures LinkHolds(e, q) {
      if e.payload.ToolResult? && (e.seqNo in q || SourceSet(e.sources) * q != {}) {
        var x :| x in {e.seqNo} + SourceSet(e.sources) && x in q;
        var path :| Path(surface, path, x);
        forall y | y in {e.seqNo} + SourceSet(e.sources) ensures y in q {
          assert Linked(surface, x, y);
          PathGrows(surface, path, x, y);
          MentionedHolds(surface, e, y);
        }
        assert e.seqNo in {e.seqNo} + SourceSet(e.sources);
      }
    }
  }

  /** The least protected set holds exactly what a path from a skill reaches. */
  lemma ProtectedExactly(surface: seq<Event>, p: set<nat>)
    requires LeastProtected(surface, p)
    ensures forall x: nat :: x in p <==> Protected(surface, x)
  {
    var q := PathsSuffice(surface);
    assert p <= q;
    forall x: nat | Protected(surface, x) ensures x in p {
      var path :| Path(surface, path, x);
      PathStaysInside(surface, p, path, x);
    }
  }

  // ---------------------------------------------------------------- the selection

  /** How many newest surface events are asked for: all but the oldest when `retain` asks for more. */
  ghost predicate CutStart(n: nat, retain: int, start: nat) {
    if retain < n then start == n - retain else start == 1
  }

  /** `x` is the number of an unprotected surface event before the cut. */
  ghost predicate Taken(surface: seq<Event>, cut: nat, x: nat) {
    && (exists k :: 0 <= k < |surface| && k < cut && surface[k].seqNo == x)
    && !Protected(surface, x)
  }

  /** Nothing is selected when no event may be retained or only one is there; otherwise exactly the
      unprotected events before the greatest cut that splits no call from its results. */
  lemma SelectionExactly(events: seq<Event>, retain: int, shadowed: set<nat>, out: seq<nat>)
    requires IsSelection(events, retain, shadowed, out)
    ensures
      var surface := SurfaceEvents(events, shadowed);
      if retain < 1 || |surface| <= 1 then out == []
      else exists start: nat, cut: nat ::
             && CutStart(|surface|, retain, start) && GreatestCut(surface, start, cut)
             && forall x: nat :: x in out <==> Taken(surface, cut, x)
  {
    var surface := SurfaceEvents(events, shadowed);
    var kept := RetainedCount(retain, |surface|);
    if retain >= 1 && |surface| > 1 {
      var start := |surface| - kept;
      var cut: nat, p :| SelectedBy(surface, start, cut, p, out);
      ProtectedExactly(surface, p);
      UnprotectedMembers(surface[..cut], p);
      forall x: nat ensures x in out <==> Taken(surface, cut, x) {
        if x in out {
          var k :| 0 <= k < cut && surface[..cut][k].seqNo == x;
          assert surface[k].seqNo == x;
        }
        if Taken(surface, cut, x) {
          var k :| 0 <= k < |surface| && k < cut && surface[k].seqNo == x;
          assert surface[..cut][k].seqNo == x;
        }
      }
      assert CutStart(|surface|, retain, start) && GreatestCut(surface, start, cut);
    }
  }

  /** Instructions of skills are never selected: no skill invocation, no result that activated a
      skill, and nothing such a result answers. */
  lemma SkillsStay(events: seq<Event>, retain: int, shadowed: set<nat>, out: seq<nat>, e: Event, x: nat)
    requires IsSelection(events, retain, shadowed, out)
    requires e in events && IsSurface(e.payload) && e.seqNo !in shadowed
    requires (e.payload.SkillInvocation? && x == e.seqNo)
          || (e.payload.ToolResult? && e.payload.activation && (x == e.seqNo || x in e.sources))
    ensures x !in out
  {
    var surface := SurfaceEvents(events, shadowed);
    SurfaceMembers(events, shadowed);
    SelectionExactly(events, retain, shadowed, out);
    StartIsPath(surface, x);
  }

  lemma HasStart(surface: seq<Event>, x: nat)
    requires Protected(surface, x)
    ensures exists y :: Starts(surface, y)
  {
    var path :| Path(surface, path, x);
    assert Starts(surface, path[0]);
  }

  /** Without them nothing is protected, and without calls and results besides, the selection is
      everything but the newest `retain` surface events, and at least the oldest. */
  lemma PlainSelection(events: seq<Event>, retain: nat, shadowed: set<nat>, out: seq<nat>)
    requires IsSelection(events, retain, shadowed, out) && retain >= 1
    requires forall e :: e in SurfaceEvents(events, shadowed) ==>
               !e.payload.SkillInvocation? && !e.payload.ToolResult? && !e.payload.AssistantMessage?
    requires |SurfaceEvents(events, shadowed)| > 1
    ensures
      var surface := SurfaceEvents(events, shadowed);
      |out| == (if retain < |surface| then |surface| - retain else 1)
      && forall k :: 0 <= k < |out| ==> out[k] == surface[k].seqNo
  {
    var surface := SurfaceEvents(events, shadowed);
    var start := |surface| - RetainedCount(retain, |surface|);
    var cut: nat, p :| SelectedBy(surface, start, cut, p, out);
    Unpaired(surface, start, p);
    NothingStarts(surface, p);
    AllTaken(surface[..cut], p);
  }

  lemma NothingStarts(surface: seq<Event>, p: set<nat>)
    requires LeastProtected(surface, p)
    requires forall e :: e in surface ==> !e.payload.SkillInvocation? && !e.payload.ToolResult?
    ensures p == {}
  {
    ProtectedExactly(surface, p);
    forall x | x in p ensures exists y :: Starts(surface, y) { HasStart(surface, x); }
  }

  lemma {:induction false} AllTaken(prefix: seq<Event>, p: set<nat>)
    requires p == {}
    ensures |Unprotected(prefix, p)| == |prefix|
    ensures forall k :: 0 <= k < |prefix| ==> Unprotected(prefix, p)[k] == prefix[k].seqNo
  {
    if |prefix| > 0 { AllTaken(prefix[..|prefix| - 1], p); }
  }
}
