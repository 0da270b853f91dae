/** `Surface.Project` in the source's own form: loops over mutable maps and a rebuilt node slice,
    each proved against the fold of module Surface. */
module SurfaceProject {
  import opened Basics
  import opened Events
  import opened Surface
  import opened ProjectionLemmas

  /** First pass: fold the compaction events into transactions (session/surface.go:169-300). */
  method FoldTransactions(events: seq<Event>) returns (r: Result<Ledger>)
    ensures r == FoldLedger(events)
  {
    var ledger := EMPTY_LEDGER;
    for i := 0 to |events|
      invariant FoldLedger(events[..i]) == Ok(ledger)
    {
      Snoc(events, i);
      var step := LedgerStep(ledger, events[i]);
      if step.Err? {
        FoldLedgerFails(events, i);
        return Err(step.error);
      }
      ledger := step.value;
    }
    assert events[..|events|] == events;
    return Ok(ledger);
  }

  /** Once a prefix fails to fold, so does the whole log, with the same error. */
  lemma {:induction false} FoldLedgerFails(events: seq<Event>, i: nat)
    requires i < |events| && FoldLedger(events[..i + 1]).Err?
    ensures FoldLedger(events) == FoldLedger(events[..i + 1])
  {
    if i + 1 == |events| {
      assert events[..i + 1] == events;
    } else {
      var before := events[..|events| - 1];
      assert before[..i + 1] == events[..i + 1];
      FoldLedgerFails(before, i);
    }
  }

  /** Applies the sealed transactions in first-appearance order (session/surface.go:302-311). */
  method ApplySealed(ledger: Ledger) returns (r: Result<Meta>, replacements: seq<Replacement>)
    ensures r == ApplyAll(Sealed(ledger))
    ensures r.Ok? ==> replacements == Sealed(ledger)
  {
    var meta := EMPTY_META;
    replacements := [];
    for i := 0 to |ledger.order|
      invariant replacements == SealedIn(ledger, ledger.order[..i])
      invariant ApplyAll(replacements) == Ok(meta)
    {
      Snoc(ledger.order, i);
      var t := Lookup(ledger, ledger.order[i]);
      if IsSealed(t) {
        var applied := ApplyOne(meta, ToReplacement(t));
        var extended := replacements + [ToReplacement(t)];
        assert extended[..|extended| - 1] == replacements;
        if applied.Err? {
          SealedPrefix(ledger, i + 1);
          assert Sealed(ledger)[..|replacements| + 1] == extended;
          ApplyFails(Sealed(ledger), |replacements|);
          return Err(applied.error), replacements;
        }
        meta, replacements := applied.value, extended;
      }
    }
    assert ledger.order[..|ledger.order|] == ledger.order;
    return Ok(meta), replacements;
  }

  lemma {:induction false} SealedPrefix(l: Ledger, n: nat)
    requires n <= |l.order|
    ensures SealedIn(l, l.order[..n]) <= Sealed(l)
    decreases |l.order| - n
  {
    if n == |l.order| {
      assert l.order[..n] == l.order;
    } else {
      Snoc(l.order, n);
      SealedPrefix(l, n + 1);
    }
  }

  lemma {:induction false} ApplyFails(rs: seq<Replacement>, i: nat)
    requires i < |rs| && ApplyAll(rs[..i + 1]).Err?
    ensures ApplyAll(rs) == ApplyAll(rs[..i + 1])
  {
    if i + 1 == |rs| {
      assert rs[..i + 1] == rs;
    } else {
      var before := rs[..|rs| - 1];
      assert before[..i + 1] == rs[..i + 1];
      ApplyFails(before, i);
    }
  }

  // The tables the pairing check walks with: what was last recorded for each call.

  ghost predicate ResultTableOf(table: map<string, nat>, events: seq<Event>) {
    forall call :: call != "" ==>
      if call in table then LastResult(events, call) == Some(table[call]) else LastResult(events, call) == None
  }

  ghost predicate AssistantTableOf(table: map<string, nat>, events: seq<Event>) {
    forall call :: call != "" ==>
      if call in table then LastAssistant(events, call) == Some(table[call]) else LastAssistant(events, call) == None
  }

  method ResultTable(events: seq<Event>) returns (table: map<string, nat>)
    ensures ResultTableOf(table, events)
  {
    table := map[];
    for i := 0 to |events|
      invariant ResultTableOf(table, events[..i])
    {
      Snoc(events, i);
      if events[i].payload.ToolResult? && events[i].call != "" {
        table := table[events[i].call := events[i].seqNo];
      }
    }
    assert events[..|events|] == events;
  }

  /** One assistant message: records its calls and checks that a visible message keeps its results. */
  method RecordCalls(calls: seq<string>, seqNo: nat, visible: bool, shadowed: set<nat>,
                     resultByCall: map<string, nat>, before: map<string, nat>)
    returns (valid: bool, table: map<string, nat>)
    ensures valid <==> forall call :: call in calls && call != "" && visible && call in resultByCall ==> resultByCall[call] !in shadowed
    ensures valid ==> forall call :: call != "" && call in calls ==> call in table && table[call] == seqNo
    ensures valid ==> forall call :: call != "" && call !in calls ==>
                        (call in table <==> call in before) && (call in table ==> table[call] == before[call])
  {
    table := before;
    for j := 0 to |calls|
      invariant forall k :: 0 <= k < j && calls[k] != "" && visible && calls[k] in resultByCall ==> resultByCall[calls[k]] !in shadowed
      invariant forall k :: 0 <= k < j && calls[k] != "" ==> calls[k] in table && table[calls[k]] == seqNo
      invariant forall call :: call != "" && call !in calls[..j] ==>
                  (call in table <==> call in before) && (call in table ==> table[call] == before[call])
    {
      assert calls[..j + 1] == calls[..j] + [calls[j]];
      if calls[j] != "" {
        table := table[calls[j] := seqNo];
        if calls[j] in resultByCall && visible && resultByCall[calls[j]] in shadowed {
          return false, table;
        }
      }
    }
    assert calls[..|calls|] == calls;
    return true, table;
  }

  /** A visible tool result: nothing it answers may be shadowed. */
  method SourcesVisible(sources: seq<nat>, shadowed: set<nat>) returns (visible: bool)
    ensures visible == (SourceSet(sources) !! shadowed)
  {
    for j := 0 to |sources|
      invariant forall k :: 0 <= k < j ==> sources[k] !in shadowed
    {
      if sources[j] in shadowed {
        assert sources[j] in SourceSet(sources);
        return false;
      }
    }
    return true;
  }

  ghost predicate CallsKeep(calls: seq<string>, seqNo: nat, shadowed: set<nat>, results: map<string, nat>) {
    forall call :: call in calls && call != "" && seqNo !in shadowed && call in results ==> results[call] !in shadowed
  }

  lemma CallsKeepAll(events: seq<Event>, shadowed: set<nat>, results: map<string, nat>)
    requires ResultTableOf(results, events)
    ensures CallsKeepResults(events, shadowed) <==>
              forall k :: 0 <= k < |events| && events[k].payload.AssistantMessage? ==>
                CallsKeep(events[k].payload.calls, events[k].seqNo, shadowed, results)
  {
  }

  /** Walks the assistant messages (session/surface.go:721-739). */
  method CheckCalls(events: seq<Event>, shadowed: set<nat>, resultByCall: map<string, nat>)
    returns (valid: bool, assistantByCall: map<string, nat>)
    requires ResultTableOf(resultByCall, events)
    ensures valid == CallsKeepResults(events, shadowed)
    ensures valid ==> AssistantTableOf(assistantByCall, events)
  {
    assistantByCall := map[];
    CallsKeepAll(events, shadowed, resultByCall);
    for i := 0 to |events|
      invariant AssistantTableOf(assistantByCall, events[..i])
      invariant forall k :: 0 <= k < i && events[k].payload.AssistantMessage? ==>
                  CallsKeep(events[k].payload.calls, events[k].seqNo, shadowed, resultByCall)
    {
      Snoc(events, i);
      if events[i].payload.AssistantMessage? {
        var kept, table := RecordCalls(events[i].payload.calls, events[i].seqNo, events[i].seqNo !in shadowed,
                                       shadowed, resultByCall, assistantByCall);
        if !kept {
          return false, assistantByCall;
        }
        assistantByCall := table;
      }
    }
    assert events[..|events|] == events;
    return true, assistantByCall;
  }

  /** Pairing integrity (session/surface.go:713-757). */
  method ValidatePairing(events: seq<Event>, shadowed: set<nat>) returns (valid: bool)
    ensures valid == ValidPairing(events, shadowed)
  {
    var resultByCall := ResultTable(events);
    var kept, assistantByCall := CheckCalls(events, shadowed, resultByCall);
    if !kept {
      return false;
    }
    for i := 0 to |events|
      invariant forall k :: 0 <= k < i && events[k].payload.ToolResult? && events[k].seqNo !in shadowed
                  ==> ResultSources(events, events[k]) !! shadowed
    {
      if events[i].payload.ToolResult? && events[i].seqNo !in shadowed {
        var sources := events[i].sources;
        if |sources| == 0 && events[i].call != "" && events[i].call in assistantByCall {
          sources := [assistantByCall[events[i].call]];
        }
        assert SourceSet(sources) == ResultSources(events, events[i]);
        var visible := SourcesVisible(sources, shadowed);
        if !visible {
          return false;
        }
      }
    }
    return true;
  }

  /** Second pass: nodes of the visible surface (session/surface.go:325-378). */
  method BuildSurface(events: seq<Event>, shadowed: set<nat>, replacements: seq<Replacement>) returns (nodes: seq<Node>)
    requires forall r :: r in replacements ==> SourceSet(r.sourceSeqs) <= shadowed
    requires forall x :: x in shadowed ==> exists r :: r in replacements && x in r.sourceSeqs
    ensures nodes == BuildNodes(events, LatestCatalog(events, shadowed), shadowed, ByReplacementSeq(replacements))
  {
    var latest := 0;
    for i := 0 to |events|
      invariant latest == LatestCatalog(events[..i], shadowed)
    {
      Snoc(events, i);
      if events[i].payload.SkillCatalog? && events[i].seqNo !in shadowed && events[i].seqNo > latest {
        latest := events[i].seqNo;
      }
    }
    assert events[..|events|] == events;
    var done: map<nat, Replacement> := map[];
    var replaced: set<nat> := {};
    for i := 0 to |replacements|
      invariant done == ByReplacementSeq(replacements[..i])
      invariant forall x :: x in replaced <==> exists k :: 0 <= k < i && x in replacements[k].sourceSeqs
    {
      Snoc(replacements, i);
      replaced := replaced + SourceSet(replacements[i].sourceSeqs);
      if replacements[i].seqNo > 0 {
        done := done[replacements[i].seqNo := replacements[i]];
      }
    }
    assert replacements[..|replacements|] == replacements;
    assert replaced == shadowed;
    nodes := [];
    for i := 0 to |events|
      invariant nodes == BuildNodes(events[..i], latest, shadowed, done)
    {
      Snoc(events, i);
      var e := events[i];
      if !IsSurface(e.payload) || SkippedCatalog(e, latest, replaced) {
        continue;
      }
      if e.payload.SurfaceReplacement? {
        if e.seqNo in done {
          nodes := nodes + [Node(e.seqNo, [Message(User, [done[e.seqNo].summary])])];
        }
        continue;
      }
      nodes := nodes + [Node(e.seqNo, Render(e.payload))];
    }
  }

  /** Rebuilds the node slice for one replacement (session/surface.go:379-410). */
  method ReplaceNodes(nodes: seq<Node>, r: Replacement) returns (out: Result<seq<Node>>)
    ensures out == FoldOne(nodes, r)
  {
    var selected := SourceSet(r.sourceSeqs);
    var insertAt := -1;
    for i := 0 to |nodes|
      invariant insertAt == -1 && forall k :: 0 <= k < i ==> nodes[k].seqNo !in selected
    {
      if nodes[i].seqNo in selected {
        insertAt := i;
        break;
      }
    }
    if insertAt < 0 {
      return Err(NoVisibleSource);
    }
    var folded: seq<Node> := [];
    var inserted := false;
    for i := 0 to |nodes|
      invariant folded == Rewrite(nodes[..i], selected, SummaryNode(r))
      invariant inserted == AnyReplaced(nodes[..i], selected, r.seqNo)
    {
      Snoc(nodes, i);
      ReplacedSnoc(nodes, i, selected, r.seqNo);
      if nodes[i].seqNo == r.seqNo {
        continue;
      }
      if nodes[i].seqNo in selected {
        if !inserted {
          folded := folded + [SummaryNode(r)];
          inserted := true;
        }
        continue;
      }
      folded := folded + [nodes[i]];
    }
    assert nodes[..|nodes|] == nodes;
    return Ok(folded);
  }

  lemma ReplacedSnoc(nodes: seq<Node>, i: nat, selected: set<nat>, own: nat)
    requires i < |nodes|
    ensures AnyReplaced(nodes[..i + 1], selected, own)
      <==> AnyReplaced(nodes[..i], selected, own) || (nodes[i].seqNo != own && nodes[i].seqNo in selected)
  {
    if nodes[i].seqNo != own && nodes[i].seqNo in selected {
      assert nodes[..i + 1][i] == nodes[i];
    }
    if AnyReplaced(nodes[..i], selected, own) {
      var k :| 0 <= k < i && nodes[..i][k].seqNo != own && nodes[..i][k].seqNo in selected;
      assert nodes[..i + 1][k] == nodes[..i][k];
    }
    if AnyReplaced(nodes[..i + 1], selected, own) {
      var k :| 0 <= k < i + 1 && nodes[..i + 1][k].seqNo != own && nodes[..i + 1][k].seqNo in selected;
      if k < i { assert nodes[..i][k] == nodes[..i + 1][k]; }
    }
  }

  lemma {:induction false} FoldFails(nodes: seq<Node>, rs: seq<Replacement>, i: nat)
    requires i < |rs| && FoldAll(nodes, rs[..i + 1]).Err?
    ensures FoldAll(nodes, rs) == FoldAll(nodes, rs[..i + 1])
  {
    if i + 1 == |rs| {
      assert rs[..i + 1] == rs;
    } else {
      var before := rs[..|rs| - 1];
      assert before[..i + 1] == rs[..i + 1];
      FoldFails(nodes, before, i);
    }
  }

  /** One rewrite per sealed transaction, in order. */
  method ApplyReplacements(raw: seq<Node>, replacements: seq<Replacement>) returns (out: Result<seq<Node>>)
    ensures out == FoldAll(raw, replacements)
  {
    var nodes := raw;
    for i := 0 to |replacements|
      invariant FoldAll(raw, replacements[..i]) == Ok(nodes)
    {
      Snoc(replacements, i);
      var folded := ReplaceNodes(nodes, replacements[i]);
      if folded.Err? {
        FoldFails(raw, replacements, i);
        return Err(folded.error);
      }
      nodes := folded.value;
    }
    assert replacements[..|replacements|] == replacements;
    return Ok(nodes);
  }

  /** The messages of the nodes no transaction shadows (session/surface.go:411-417). */
  method VisibleMessages(nodes: seq<Node>, shadowed: set<nat>) returns (messages: seq<Message>)
    ensures messages == Flatten(Without(nodes, shadowed)) && InNodeOrder(messages, Without(nodes, shadowed))
  {
    messages := [];
    for i := 0 to |nodes|
      invariant messages == Flatten(Without(nodes[..i], shadowed))
    {
      Snoc(nodes, i);
      ghost var visible := Without(nodes[..i], shadowed);
      if nodes[i].seqNo != 0 && nodes[i].seqNo in shadowed {
        assert Without(nodes[..i + 1], shadowed) == visible;
        continue;
      }
      assert (visible + [nodes[i]])[..|visible|] == visible;
      messages := messages + nodes[i].messages;
    }
    assert nodes[..|nodes|] == nodes;
    FlattenInOrder(Without(nodes, shadowed));
  }

  /** A projection as callers see it: the messages and the metadata, no internal nodes. */
  datatype Projected = Projected(messages: seq<Message>, generation: nat, shadowed: set<nat>, summary: string, fingerprint: string)

  /** `Surface.Project` for the zero surface spec: it fails exactly when the specification does,
      with the same error, and otherwise returns the specified messages and metadata. */
  method ProjectLog(events: seq<Event>) returns (r: Result<Projected>)
    ensures r.Ok? <==> Project(events).Ok?
    ensures r.Err? ==> r.error == Project(events).error
    ensures r.Ok? ==>
      var p := Project(events).value;
      r.value == Projected(Flatten(p.nodes), p.generation, p.shadowed, p.summary, p.fingerprint)
      && InNodeOrder(r.value.messages, p.nodes)
  {
    var ledger :- FoldTransactions(events);
    var applied, replacements := ApplySealed(ledger);
    var meta :- applied;
    var paired := ValidatePairing(events, meta.shadowed);
    if !paired {
      return Err(PairingBroken);
    }
    AppliedSources(replacements);
    var raw := BuildSurface(events, meta.shadowed, replacements);
    var nodes :- ApplyReplacements(raw, replacements);
    var messages := VisibleMessages(nodes, meta.shadowed);
    return Ok(Projected(messages, meta.generation, meta.shadowed, meta.summary, meta.fingerprint));
  }
}
