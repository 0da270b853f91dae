# AgentKit runtime: a verified model

AgentKit runs agents on top of one append-only session log. Everything else is a projection of that
log or a protocol over it. This project models the parts of the runtime where that is hard to get
right and proves what they promise, for all logs, all runs and all interleavings.

Run `dafny verify dfyconfig.toml` in this directory to check everything.

## Shape

| files | what they model |
|---|---|
| `Basics.dfy`, `Events.dfy` | shared facts; the durable event vocabulary, payloads decoded |
| `Surface.dfy`, `SurfaceProject.dfy`, `LedgerMeaning.dfy`, `ProjectionMeaning.dfy` | the projection of a log to model messages: as folds, as the loops that compute it, and what the folds say of the log |
| `Selection.dfy`, `SelectionMeaning.dfy` | what a compaction may replace: two fixpoint loops, and what they select |
| `Compaction.dfy`, `CompactionLoop.dfy`, `CompactionChains.dfy` | one durable compaction, from selection to commit, and runs of successful and failing ones |
| `ProjectionLemmas.dfy`, `CompactionTheorems.dfy`, `VisibleList.dfy`, `CompactionRetry.dfy`, `SelectionLimits.dfy`, `ProjectionScope.dfy` | theorems about projection, compaction, interrupted compactions and the loop's cache |
| `Store.dfy`, `MemoryStore.dfy`, `StoreMeaning.dfy`, `StoreRuns.dfy` | the leased, fenced store: as operations on its maps, as the object that performs them, position by position, and over whole runs |
| `Recovery.dfy`, `RecoveryMethods.dfy`, `RecoveryMeaning.dfy`, `RecoveryTheorems.dfy` | fenced recovery of an interrupted session: the folds, the loops, what the folds say of the log, what recovery achieves |
| `Deferral.dfy` | deferred calls: the resume guard, the list of pending resumes and the gate of a step |
| `Lifecycle.dfy`, `LifecycleGuards.dfy`, `LifecycleInvariant.dfy`, `LifecycleTheorems.dfy`, `LifecycleStarts.dfy`, `ApprovalGap.dfy` | the tool-call protocol as a state machine with crashing and stale workers |
| `EmitterTheorems.dfy`, `EmitterGap.dfy` | what the numbering of event ids does to that protocol |
| `Delivery.dfy`, `DeliveryLimits.dfy`, `Replay.dfy`, `EventHub.dfy` | ordered live delivery, when it gives a subscriber up, and the replay/live handoff |
| `Scheduler.dfy` | the rolling bounded batch of tool calls |
| `Skills.dfy`, `SkillRegistry.dfy` | layered skill resolution and its revisioned cache |
| `TextEdit.dfy`, `EditMeaning.dfy` | literal edits that keep line endings |

Folds follow the log from its end: appending one event unfolds one step. Where the source updates
state in place there is a class or a method with loops, and its `ensures` ties the new state to the
fold; the theorems are about the folds.

## Where the code falls short of what one would expect of it

Each item but the one about `ABORTED_BEFORE_DISPATCH`, which holds of every log, names a concrete log
or run on which it happens and the lemma that says exactly when.

* **A resumed run may draw event ids that are taken, and its writes are then swallowed.** A run numbers
  its event ids (agent/loop.go:2805-2822), also for calls the provider returned without an id, which
  become no event (agent/loop.go:2637-2639), while a resume numbers from the count of cached events
  (agent/loop.go:473, 490, 659, 718 and 968). The store answers a taken id with the old
  event and reports success (session/fenced.go:219-228), so the loop goes on as if it had written. With
  one id-less call, deferred, the resume's barrier is answered with the deferral itself, and one
  deferral allows any number of executions (`EmitterGap.OneDeferralRunsAnyNumberOfTimes`); with two in
  one response the result is swallowed too and the call is never settled
  (`EmitterGap.ResultIsSwallowed`). A write of a resumed run is swallowed exactly when the log held its
  number at the resume (`EmitterTheorems.SwallowedExactly`, `EmitterTheorems.BarrierSwallowedExactly`).
  A call runs at most once more often than it was deferred, plus once for each swallowed barrier
  (`EmitterTheorems.ExecutionsAndSwallowedBarriers`); without swallowed barriers each execution has its
  own barrier (`EmitterTheorems.UnswallowedRunsHaveBarriers`), and nothing is ever swallowed in runs that
  draw each id for an event (`EmitterTheorems.EveryDrawIsWritten`).
* **Approved resumes can run a call twice between deferrals.** `ResumeApprovedTool` refuses calls
  with a `tool/dispatched` record, but a resumed call has `tool/resume_started` as its barrier
  (agent/loop.go:913-929). `ApprovalGap.ApprovedResumeRunsTwice` is such a run. A deferral lies between
  any two barriers exactly when none is written over an open one
  (`LifecycleTheorems.SeparatedExactly`, `LifecycleTheorems.CarelessExactly`), which a check of both
  guards ensures (`LifecycleTheorems.ExecutionsAreSeparated`). Executions under barriers stay bounded by
  the deferrals all the same (`LifecycleTheorems.ExecutionsAreBounded`).
* **An approval request after a body hides its unknown outcome.** Post-policies ask after the body has
  run (tools/registry.go:953-977), and the recovery fold takes the request for a wait. Recovery then
  never settles the call and the approval guard refuses it (`ApprovalGap.HiddenBodyIsNeverSettled`);
  these calls are all that recovery leaves unsettled (`LifecycleTheorems.RecoveryAlwaysSettles`). A
  resume may even write its barrier over the hidden one (`ApprovalGap.ResumeOverHiddenBarrier`), though
  not while approvals are resumed only for calls whose request is on the log
  (`LifecycleTheorems.RequestedResumesAreCareful`).
* **Recovery may need two runs.** It spares the scope of a waiting call while it settles that very call,
  if the call was dispatched while it waited: the second run then closes the scope
  (`RecoveryTheorems.SecondRecoveryEndsTheTurn`, exactly when: `RecoveryTheorems.RecoveryIsIdempotent`).
  A third run never changes anything (`RecoveryTheorems.RecoveryConverges`).
* **Recovery's ids are used once.** A step started again under a key that recovery closed before stays
  open (`RecoveryTheorems.ReopenedStepStaysOpen`, `RecoveryTheorems.StepsClosedExactly`).
* **Results written by recovery record no source messages** (session/fenced.go:318-322), so a later
  compaction may separate such a result from its call, and the committed log is refused
  (`SelectionLimits.RecoveredResultIsSplit`, exactly when: `SelectionLimits.UnlinkedCommitExactly`).
* **A compaction that was started and not sealed can ruin the log.** Its start marker stays, after a
  crash or a failing compactor, and its transaction id derives from the generation alone. A later
  attempt seals the transaction exactly when its own marker is deduplicated, which takes the same owner,
  and its selection repeats the marker's; otherwise no extension of the log ever projects again
  (`CompactionRetry.RetrySealsExactly`). One message in between is enough
  (`CompactionRetry.LaterMessageRuinsRetry`), and so is another owner
  (`CompactionRetry.OtherOwnerRuinsRetry`). In every run of writes, successful and failing compactions,
  as long as results name their sources, a conflicting marker is the only thing that ruins a compaction
  (`CompactionChains.EveryCompactionRewrites`).
* **A superseded skill catalog still marks a place.** The model no longer sees it, but when a
  compaction selects it first the summary stands where the catalog stood
  (`VisibleList.SummaryMovesForward`). The rewrite always holds of the list that keeps catalogs
  (`CompactionTheorems.CommitIsRewrite`), and of the visible list exactly when no visible unselected node
  stands between the two places (`VisibleList.VisibleListExactly`).
* **`AppendFenced` does not deduplicate inside one batch** (`StoreRuns.RepeatedIdIsStoredTwice`, exactly
  when: `StoreRuns.FencedUniqueIdsExactly`), `AppendFencedCommitted` does
  (`StoreRuns.CommittedKeepsUniqueIds`).
* **Recovery never reports `ABORTED_BEFORE_DISPATCH`**: whatever dangles has its barrier on the log
  (`RecoveryTheorems.RecoveredOutcomeIsUnknown`).
* **A skill answer can be dropped as it is cached**, exactly when its key is also the oldest of a full
  list (`SkillRegistry.Registry.Remember`). With a bound of one, two collections of a request that
  overlap are enough, and then every later collection of that request is dropped again until the
  registry changes (`SkillRegistry.TwoCollectionsDropTheAnswer`).
* **An edit of a file with bare line feeds may not read back as edited**
  (`TextEdit.InsertedReturnIsSwallowed`, exactly when: `TextEdit.EditReadsBackExactly`).

## What callers must provide

These are preconditions because the code relies on them: call ids are unique in a session
(agent/loop.go:2626-2649 only checks one response, and an id it draws for a call without one is an
event number, which a resumed run may draw again); run ids are new (agent/loop.go:2824-2827); a hub
serves one session's sequence space; the parallel-safety classifier is a function; a provider's listing
changes only with an invalidation. That event ids are new is not among them: where they are not is
part of the model.

## Model

| member | source | states |
|---|---|---|
| LedgerMeaning.AcceptsExactly | session/surface.go:169-308 | a log is accepted if and only if names and sources are well formed and each transaction's own events begin one matched start/summary/replacement/end; its recorded state is what those events say |
| LedgerMeaning.SealedIsMatched | session/surface.go:309-318 | a transaction is applied exactly when its own events are a complete matched quadruple |
| LedgerMeaning.SourcesAreDistinct | session/surface.go:683-695 | sources are valid when there are some, none is zero and none is repeated |
| SurfaceProject.FoldTransactions | session/surface.go:137-308 | the loop over mutable transactions ends in the ledger that `LedgerMeaning.AcceptsExactly` describes, with the first error otherwise |
| SurfaceProject.ApplySealed | session/surface.go:146-168 | applying the sealed transactions gives their accumulated generation, shadow set, summary and fingerprint, or fails on a generation going backwards |
| SurfaceProject.ValidatePairing | session/surface.go:713-757 | the pairing check accepts exactly when no visible call lost its result and no visible result lost what it answers |
| SurfaceProject.BuildSurface | session/surface.go:334-379 | the node loop yields one node per rendered surface event, skipping superseded catalogs no replacement needs and unsealed replacements |
| SurfaceProject.ReplaceNodes | session/surface.go:380-415 | one replacement is the list rewrite: first selected node becomes the summary, the others and the summary's old place disappear; no selected node is an error |
| SurfaceProject.ApplyReplacements | session/surface.go:380-415 | replacements apply in order, later ones to the result of earlier ones |
| SurfaceProject.VisibleMessages | session/surface.go:416-423 | the messages are those of the unshadowed nodes: message k of node i stands behind all messages of the nodes before it and the k earlier ones of its own, and there are no others |
| SurfaceProject.ProjectLog | session/surface.go:88-434 | the whole projection, with its errors, computes the specification `Project` and `Messages`, and the messages stand in the order of the visible nodes |
| ProjectionLemmas.LedgerAlwaysMatches | session/surface.go:137-308 | in every accepted log each replacement sequence belongs to an event of its own transaction, and transactions are listed once |
| ProjectionLemmas.BuildIsSlotsWithout | session/surface.go:334-379 | the built nodes are the slots of all rendering events without the superseded catalogs |
| ProjectionLemmas.RewriteMeaning | session/surface.go:380-415 | a rewrite keeps every unselected node in order, removes all selected ones and puts the summary where the first of them stood |
| ProjectionLemmas.LatestIsNewest | session/surface.go:335-340 | the kept catalog is the newest visible one |
| ProjectionLemmas.FlattenInOrder | session/surface.go:416-423 | the messages of a node list stand in node order, each node's own in their order, and their number is the sum over the nodes |
| ProjectionLemmas.OrderDecides | session/surface.go:416-423 | a node list has one list of messages in that order |
| ProjectionMeaning.PairingExactly | session/surface.go:713-757 | pairing holds if and only if no visible message loses the newest result of one of its calls, and no visible result loses one of its sources or, recording none, the newest message of its call |
| ProjectionMeaning.LastResultExactly | session/surface.go:713-757 | the result compared with a call is its newest one on the log |
| ProjectionMeaning.LastAssistantExactly | session/surface.go:713-757 | a result without sources answers the newest message that carries its call |
| ProjectionMeaning.ApplyExactly | session/surface.go:146-168 | sealed transactions apply if and only if no positive generation is followed by a smaller one; they shadow the union of their sources and leave the newest generation, summary and fingerprint |
| ProjectionMeaning.BuiltExactly | session/surface.go:334-379 | the nodes of a log stand in log order, one for each event that has a place, with what the model reads of that kind of event |
| ProjectionMeaning.PlainLogIsReadWhole | session/surface.go:88-434 | a paired log without compactions projects to the messages of its events, whole and in log order |
| Selection.ProtectedSkillSurface | agent/loop.go:2722-2759 | the protection loop ends with the least set that holds the skill seeds and is closed under result/source links |
| Selection.ExpandCut | agent/loop.go:2672-2709 | the cut loop ends with the greatest cut not after the start that separates no call from its results |
| Selection.ShadowedSeqsRetainingTail | agent/loop.go:2651-2717 | the selection is the unprotected part before that cut, or nothing when nothing can be retained |
| Selection.UnprotectedOrdered | agent/loop.go:2710-2716 | selected sequences are positive and strictly increasing, hence valid compaction sources |
| SelectionMeaning.ProtectedExactly | agent/loop.go:2722-2759 | a number is protected if and only if a path of results and their sources leads to it from a skill invocation, an activating result or what such a result answers |
| SelectionMeaning.SelectionExactly | agent/loop.go:2651-2717 | nothing is selected if no event or one is there or none is to be retained; otherwise exactly the unprotected events before the greatest cut that leaves the newest `retain` ones, or all but the oldest, and splits no call |
| SelectionMeaning.SkillsStay | agent/loop.go:2722-2740 | no skill invocation, no result that activated a skill and nothing such a result answers is ever selected |
| SelectionMeaning.PlainSelection | agent/loop.go:2651-2717 | without skills, calls and results the selection is everything but the newest `retain` events, and at least the oldest |
| Compaction.SelectionKeepsPairing | agent/loop.go:2672-2717 | on a linked log, shadowing any pair-closed, link-closed selection keeps a valid pairing valid |
| Compaction.CommitSeals | agent/loop.go:2230-2241 | the four events of a fresh transaction fold without error and seal exactly one more replacement |
| Compaction.CommitIsNeutral | agent/loop.go:2230-2241 | a commit changes neither pairing nor the newest catalog |
| CompactionTheorems.ProjectByListing | session/surface.go:309-422 | a log projects exactly when its sealed transactions apply, its pairing is valid and its slots fold; the visible nodes are the listing without superseded catalogs |
| CompactionTheorems.SupersededAfter | session/surface.go:335-349 | a selection that takes a visible catalog takes all older ones, so supersession changes only by the selection |
| CompactionTheorems.ReplaceFoldsOnce | session/surface.go:309-415 | whatever events seal it, a replacement rewrites the folded slots once more, earlier summaries among the sources included |
| CompactionTheorems.ReplacementIsRewrite | session/surface.go:309-422 | sealing the current selection, by whatever events, is the list rewrite |
| CompactionTheorems.CommitIsRewrite | agent/loop.go:2181-2241 | committing a selected compaction always projects, one generation up, with the sources shadowed, and the listing is the old one with all sources removed and one summary where the first stood |
| VisibleList.OrdersAgreeExactly | session/surface.go:334-422 | hiding nodes before a rewrite and after it give the same list if and only if no visible unselected node stands between the first selected node and the first selected visible one |
| VisibleList.VisibleListExactly | agent/loop.go:2181-2241 | the list the model sees is itself rewritten by a commit if and only if the summary is in place in that sense |
| VisibleList.VisibleListIsRewritten | agent/loop.go:2181-2241 | in particular when no superseded catalog is selected |
| VisibleList.SummaryMovesForward | session/surface.go:334-422 | a log with a superseded catalog, a protected skill and a message on which the summary moves before the skill |
| CompactionTheorems.UnsealedIsInvisible | session/surface.go:169-318 | any proper prefix of a fresh compaction's events leaves the projection unchanged |
| CompactionRetry.RetrySealsExactly | agent/loop.go:2181-2241 | on a log with an unsealed start marker and anything uncompacted after it, an attempt projects if and only if its own marker is deduplicated and its selection repeats the marker's; then it is the list rewrite, otherwise no extension ever projects |
| CompactionRetry.OwnMarkerIsKnown | agent/loop.go:2538-2541 | the marker is deduplicated exactly for the owner that wrote it |
| CompactionRetry.RetryAtOnceRepeats | agent/loop.go:2103-2118 | with no surface event in between the same retained size selects the marker's sources again |
| CompactionRetry.SelectionIsUnique | agent/loop.go:2651-2717 | a log has one selection for a retained size |
| CompactionRetry.LaterMessageRuinsRetry | agent/loop.go:2206-2228 | a marker over two of three messages; after a fourth message the same loop selects three and the log is refused for good |
| CompactionRetry.OtherOwnerRuinsRetry | session/surface.go:187-194 | on that log any attempt of another owner is refused for good |
| CompactionLoop.Loop.Compact | agent/loop.go:2185-2228 | a compaction that fails early writes nothing, one whose compactor fails leaves the start marker of the selection unless the loop wrote it before, one that succeeds seals the selection through the idempotent append |
| CompactionLoop.CompactedLogIsRewritten | agent/loop.go:2185-2228 | what a successful compaction leaves projects to the rewritten list, one generation later |
| CompactionChains.ChainHolds | agent/loop.go:2103-2228 | over every run of ordinary events, successful and failing compactions by any loops, the log is a chain whose next transaction is fresh, a chain with one pending marker, or refused for good |
| CompactionChains.EveryCompactionRewrites | agent/loop.go:2181-2241 | a compaction of such a run is the list rewrite if and only if no marker of its generation is another owner's or for other sources; otherwise the log is refused for good |
| CompactionChains.EveryFailureIsInvisible | agent/loop.go:2206-2216 | a failing compactor of such a run changes nothing the model sees if and only if no other owner's marker of its generation is on the log; otherwise the log is refused for good |
| CompactionChains.FailureLeavesPending | agent/loop.go:2206-2216 | without any marker of its generation it leaves the log as the retry theorem assumes |
| CompactionLoop.TransactionsDiffer | agent/loop.go:2206 | different generations have different transaction ids |
| SelectionLimits.UnlinkedResultsDecide | session/surface.go:739-755 | with results that may lack sources, pairing survives a selection if and only if it splits no such pair |
| SelectionLimits.UnlinkedCommitExactly | agent/loop.go:2181-2241 | then a committed selection projects if and only if it splits no such pair |
| SelectionLimits.RecoveredResultIsSplit | session/fenced.go:313-323 | a log that recovery settled and a message followed, on which the selection splits the recovered result from its call and the commit is refused |
| ProjectionScope.ProjectionReadsOnlyRelevant | session/surface.go:169-434 | deleting any events other than surface and compaction events leaves the projection unchanged |
| ProjectionScope.CacheProjectsLikeStore | agent/loop.go:2247-2305 | in every run of own batches folded into the cache, records appended past the loop and reloads, the cache projects to the same messages as the store's log |
| ProjectionScope.FoldIsTail | agent/loop.go:2277-2292 | the fold keeps exactly the events a committed batch added if and only if the batch repeats no id that is new to the log and none of an event newer than the cache |
| ProjectionScope.RepeatedIdIsCachedTwice | agent/loop.go:2277-2292 | a batch with one new id twice, which the loop does not build, would be stored once and cached twice |
| MemoryStores.MemoryStore.Append | session/store.go:68-100 | appends every event of a valid batch under the next sequences, or refuses the whole batch; `StoreMeaning.AppendMeans` says which event stands where |
| MemoryStores.MemoryStore.AppendCommitted | session/store.go:103-150 | stores only events with new ids and returns the canonical event of each position |
| MemoryStores.MemoryStore.AppendFenced | session/fenced.go:153-195 | the same for the lease holder, comparing the batch with the log only |
| MemoryStores.MemoryStore.AppendFencedCommitted | session/fenced.go:201-251 | the lease holder's committed append |
| StoreMeaning.RefusedExactly | session/store.go:68-83 | a batch is refused if and only if some event of it lacks its call or names another session; the first such event decides the error |
| StoreMeaning.AppendMeans | session/store.go:68-100 | an accepted append adds one event per batch position: position i of the batch, with the session and the next sequence filled in and nothing else changed |
| StoreMeaning.AppendFencedMeans | session/fenced.go:153-195 | the fenced append adds exactly the batch's events whose id the log did not hold, in batch order, otherwise unchanged |
| StoreMeaning.AppendCommittedMeans | session/store.go:103-150 | the committed append stores the first event of each new id, in batch order, and answers each position with the newest event the log then has under its id |
| StoreMeaning.AppendFencedCommittedMeans | session/fenced.go:201-251 | the same for the lease holder, who alone may |
| StoreRuns.ClaimMeans | session/fenced.go:112-137 | a claim succeeds if and only if nobody holds the session; the lease has the next fence, from then on exactly its token and fence hold, for exactly its lifetime; logs and other sessions are untouched |
| StoreRuns.RenewMeans | session/fenced.go:139-151 | a renewal succeeds if and only if the lease holds; its token and fence then hold for exactly the default lifetime from now |
| StoreRuns.ReleaseMeans | session/fenced.go:254-260 | afterwards no lease with the token ever holds, the fence is remembered, and if the token was current anyone can claim; a stale token changes nothing |
| StoreRuns.HolderClaimed | session/fenced.go:401-409 | whoever passes the fence check in a run claimed the session in that run when nobody held it, and no later claim succeeded |
| MemoryStores.MemoryStore.Load | session/store.go:152-166 | returns the events after a sequence, at most the limit |
| MemoryStores.MemoryStore.Tail | session/store.go:168-185 | returns the newest events in order |
| MemoryStores.MemoryStore.Sequence | session/store.go:187-191 | the counter is the length of the log |
| StoreRuns.LogsOnlyGrow | session/fenced.go:112-259 | over any run each log only grows, sequences stay exactly 1..n and counters match |
| StoreRuns.StepExtends | session/fenced.go:153-251 | an operation extends at most its own session's log |
| StoreRuns.FencesOnlyGrow | session/fenced.go:112-137 | over any run fences never decrease |
| StoreRuns.ClaimsRaiseTheFence | session/fenced.go:112-137 | each successful claim strictly raises its session's fence |
| StoreRuns.OnlyTheHolderWrites | session/fenced.go:401-409 | a fenced append that changes the log in a run was made under the one lease that holds, claimed in that run and not replaced since |
| StoreRuns.DeadLeaseNeverWrites | session/fenced.go:139-251 | a replaced, released or expired lease never writes, by plain or committed append, or renews again, whatever runs in between |
| StoreRuns.ClaimKillsOlderLeases | session/fenced.go:112-137 | a claim kills every older lease at once |
| StoreRuns.RetryIsIdempotent | session/store.go:103-150 | retrying a named batch after any deduplicating operations changes nothing and returns the same events position by position |
| StoreRuns.FencedRetryIsIdempotent | session/fenced.go:201-251 | the same for the fenced committed append, under any lease of the session that holds at the retry |
| StoreRuns.CommittedKeepsUniqueIds | session/fenced.go:219-246 | committed appends keep ids unique even with repeats inside the batch |
| StoreRuns.FencedUniqueIdsExactly | session/fenced.go:171-193 | a fenced append keeps ids unique if and only if the batch's new ids are distinct |
| StoreRuns.RepeatedIdIsStoredTwice | session/fenced.go:171-193 | a batch with one new id twice, of which the fenced append stores both and the committed append one |
| RecoveryMethods.DanglingCallIds | session/fenced.go:411-507 | the state-table loops compute the dangling calls in order of first mention |
| RecoveryMethods.PendingDeferredScopes | session/fenced.go:509-558 | the scope tables, walked in any order, give exactly the steps and turns some waiting or unabsorbed call keeps open |
| RecoveryMethods.InterruptedDrafts | session/recovery.go:17-119 | exactly one message per step with streamed text and no final message; its text is the plain chunks of the step in log order, its reasoning the thinking ones, its sources all of them |
| RecoveryMethods.InterruptedStepEnds | session/recovery.go:125-168 | one step end per open step outside the deferred ones |
| RecoveryMethods.DraftsAreSorted | session/recovery.go:84-99 | on an ordered log drafts come in strictly increasing order of their first chunk |
| RecoveryMethods.OpenStepsAreSorted | session/recovery.go:143-152 | on an ordered log open steps come in the order of their starts |
| RecoveryMethods.Recover | session/fenced.go:265-344 | recovery of a store is one fenced append of the recovery batch, or nothing |
| RecoveryMethods.RecoverExactly | session/fenced.go:337-343 | recovery fails exactly when there is something to append and the lease does not hold, and then changes nothing |
| RecoveryMeaning.DanglingExactly | session/fenced.go:411-507 | a call dangles if and only if some barrier of it is on the log with no later result, deferral, stored result or approval request |
| RecoveryMeaning.WaitingExactly | session/fenced.go:525-544 | a call waits if and only if it was deferred or given a stored result with no later result or fresh execution |
| RecoveryMeaning.OpenStepsExactly | session/recovery.go:131-142 | a step is open if and only if some start of it has no later end |
| RecoveryMeaning.DraftSays | session/recovery.go:35-70 | a draft's text is the contents of its step's plain chunks in log order, its reasoning those of the thinking chunks, its sources the sequences of both |
| RecoveryMeaning.DraftsExactly | session/recovery.go:17-119 | a step gets a draft if and only if one of these is non-empty and no final message of it is on the log; the draft says exactly that |
| RecoveryMeaning.CallOrderIsFirst | session/fenced.go:424-500 | calls are kept in the order in which the log first mentions them, each once |
| RecoveryMeaning.DanglingInMentionOrder | session/fenced.go:411-507 | dangling calls are settled in that order |
| RecoveryMeaning.OriginExactly | session/fenced.go:356-386 | a call belongs to the step of its last own record or, without one, of the first message that carries it |
| RecoveryMeaning.ResultsExactly | session/fenced.go:302-323 | exactly the calls with an unaccounted barrier get a result: of unknown outcome, filed under the step the call belongs to |
| RecoveryMeaning.StepEndsExactly | session/recovery.go:125-168 | exactly the steps started and never ended since, in which no call waits or has an unabsorbed result, are ended |
| RecoveryMeaning.OpenStepsAre | session/recovery.go:131-152 | the open steps are the newest unended starts, oldest first |
| RecoveryMeaning.StepEndsInOrder | session/recovery.go:143-168 | steps are ended in the order of their newest starts |
| RecoveryMeaning.TurnsExactly | session/fenced.go:271-288 | the turn counter is starts minus ends, with the turn started last |
| RecoveryMeaning.TurnEndsExactly | session/fenced.go:271-336 | with more starts than ends the turn started last is ended if and only if no call keeps a step of it open |
| RecoveryMeaning.NoTurnToEnd | session/fenced.go:271-336 | otherwise no turn is ended |
| RecoveryMeaning.DeferredStepsExactly | session/fenced.go:509-558 | a step is deferred if and only if the newest deferral of some call stands in it and the call still waits, or has a result while no end of that step is on the log |
| RecoveryMeaning.ReportExactly | session/fenced.go:337-343 | the report counts the batch: its results' calls in order, its step ends, its turn end and all its events |
| RecoveryTheorems.RecoveredOutcomeIsUnknown | session/fenced.go:313-316 | every settled call is reported as unknown, never as aborted before dispatch |
| RecoveryTheorems.RecoverySettlesExactly | session/fenced.go:302-341 | after recovery nothing dangles if and only if no dangling call's recovery id was used before |
| RecoveryTheorems.StepsClosedExactly | session/fenced.go:289-301 | for every log, a step stays open if and only if it is deferred or recovery's end of it was used before; the others are closed and the order is kept |
| RecoveryTheorems.ReopenedStepStaysOpen | session/fenced.go:289-301 | a log on which a step that nothing waits in stays open |
| RecoveryTheorems.TurnClosedExactly | session/fenced.go:271-336 | for every log, the turn counter is decremented once when the open turn is not waiting and its recovery id is unused, else untouched |
| RecoveryTheorems.RecoverySettles | session/fenced.go:265-344 | for every log, exactly what stays dangling, which steps stay open and what becomes of the turn counter |
| RecoveryTheorems.RecoveryIsIdempotent | session/fenced.go:265-344 | a second recovery changes nothing if and only if every scope the first one spared is still waited in afterwards, a condition on the log before it |
| RecoveryTheorems.DeferredAfter | session/fenced.go:509-558 | the deferred scopes after a recovery, from the log before it |
| RecoveryTheorems.RecoveryConverges | session/fenced.go:265-344 | a third recovery changes nothing, whatever the log |
| RecoveryTheorems.SecondRecoveryEndsTheTurn | agent/loop.go:985-1002 | a log on which a second recovery appends the end of the turn |
| RecoveryTheorems.NothingLeftToRecover | session/fenced.go:265-344 | with unused recovery ids, one open turn and no waiting call settled into a closed step, a second recovery has nothing to append |
| RecoveryTheorems.RecoveryIsOrdered | session/fenced.go:324-336 | drafts precede tool results, which precede step ends, which precede the turn end |
| Deferral.DeferredToolRecord | agent/loop.go:799-831 | the record loop reports deferral, start, materialization and result under one key |
| Deferral.PendingDeferredToolResumes | agent/loop.go:833-873 | the pending loop lists the waiting calls with their newest key, in order of first mention |
| Deferral.HasUnresolvedInStep | agent/loop.go:777-797 | the gate is shut exactly when some call's newest keyed deferral in the step was not followed by a result, or was repeated under its key without one since |
| Deferral.ResumableExactly | agent/loop.go:799-831 | the resume guard admits a call if and only if it was deferred under the key and neither resumed nor settled since |
| Deferral.RecordExactly | agent/loop.go:799-831 | the record is that of the newest deferral under the key, settled and started by what follows it |
| Deferral.MaterializedExactly | agent/loop.go:814-827 | whether a stored result was announced is told by the newest start of a resume since the first deferral |
| Deferral.GateExactly | agent/loop.go:777-797 | a step's gate is shut if and only if some call's newest keyed deferral in the step, or a later one of the call under that key, has no result after it |
| Deferral.ResultsOpenTheGate | agent/loop.go:777-797 | the gate is open once each call deferred in the step has a result after its last deferral |
| Deferral.PendingInMentionOrder | agent/loop.go:833-873 | pending resumes are listed in the order in which the log first mentions their calls |
| Deferral.FoldsAgree | agent/loop.go:799-873 | a call is pending under a key if and only if that is its newest key and its record is deferred, unstarted and without result |
| Deferral.PendingSurvivesExactly | session/fenced.go:265-344 | recovery leaves the pending list unchanged if and only if no waiting call was dispatched after its deferral |
| Deferral.RecoveryKeepsWaits | session/fenced.go:289-301 | without such a dispatch, recovery keeps the list, leaves open only deferred steps and steps whose recovery id was used, and is idempotent |
| Deferral.WaitBlocksItsStep | agent/loop.go:692-694 | a pending call keeps the gate of its own step shut |
| Lifecycle.WriteIsFencedCommit | agent/loop.go:2247-2270 | one write of the protocol is the store's fenced committed append of one numbered event: it succeeds for the lease holder, and if the number is taken returns the old event and changes nothing |
| LifecycleGuards.ResumeGuardExactly | agent/loop.go:603-655 | a resume is admitted if and only if the call was deferred under the key and neither resumed nor settled since; it writes in the deferral's run, numbered from the length of the cache |
| LifecycleGuards.RedeliverGuardExactly | agent/loop.go:603-655 | a stored result is delivered again if and only if it was announced after the newest deferral, by the newest start, and nothing settled the call since |
| LifecycleGuards.GuardsDecide | agent/loop.go:603-655 | of an unsettled deferred call exactly one holds: it may be resumed, its stored result delivered again, or a fresh execution was started and no guard lets it through |
| LifecycleInvariant.ResumableWaits | agent/loop.go:617-632 | a call the resume guard lets through waits, is unsettled and does not dangle |
| LifecycleInvariant.RecoverKeepsLog | session/fenced.go:265-344 | recovery of a reachable log settles each dangling call exactly once |
| LifecycleInvariant.StepKeeps | agent/loop.go:542-732 | every step of every worker, stale ones and swallowed writes included, and every approval record by whoever and whenever, keeps the protocol's invariant |
| LifecycleInvariant.RunKeeps | agent/loop.go:542-732 | the invariant holds in every reachable state |
| LifecycleTheorems.EveryExecutionHasItsBarrier | agent/loop.go:1638-1643 | in every run each execution whose barrier was not swallowed follows a durable barrier of its own call, and no barrier serves two |
| LifecycleTheorems.ExecutionsAreBounded | agent/loop.go:542-732 | in every run a call executes under barriers at most once more often than it was durably deferred |
| LifecycleTheorems.SettledOnce | agent/loop.go:1691-1757 | in every run no lifecycle event but approval records follows a call's first result |
| LifecycleTheorems.RecoveryAlwaysSettles | session/fenced.go:302-341 | in every run recovery leaves nothing dangling, and the started calls it leaves unsettled are exactly those whose every unsettled barrier is followed by an approval request |
| LifecycleTheorems.RecoveryLeavesUnsettled | session/fenced.go:411-507 | the same for every log: hidden calls, and those whose recovery id was used |
| LifecycleTheorems.SeparatedExactly | agent/loop.go:912-973 | a deferral lies between any two barriers of a call if and only if no dispatch and no resume was written over an open barrier |
| LifecycleTheorems.CarelessExactly | agent/loop.go:612-654 | a resume is due over an open barrier exactly when an approval request follows one, a dispatch exactly when the open barrier is an earlier resume's; its own barrier is then written unless the log holds its number |
| LifecycleTheorems.NoApprovalIsCareful | agent/loop.go:542-732 | in runs that never resume an approved call, a deferral lies between any two of its barriers |
| LifecycleTheorems.RequestedResumesAreCareful | agent/agent.go:1017-1051 | while approvals are resumed only for calls whose request is on the log, no resume is due over an open barrier |
| LifecycleTheorems.ExecutionsAreSeparated | agent/loop.go:912-973 | when both guards also check for open barriers, a deferral lies between any two executions of a call that have barriers |
| LifecycleTheorems.ApprovalCheckSuffices | agent/agent.go:1017-1051 | when approvals are resumed only for requested calls, the check is needed at the approval alone |
| LifecycleTheorems.OpenExactly | agent/loop.go:617-632 | a call is open exactly when some barrier has no deferral after it |
| LifecycleStarts.OnlyOpenCallsStart | agent/loop.go:1611-1671 | in every run a body can start in a worker only while that worker has its call open |
| LifecycleStarts.NothingStartsAfterOutcome | agent/loop.go:1691-1757 | in every run, once a worker has written a result or a deferral of a call or given it up, it can start no body of it |
| LifecycleStarts.DeliveryStartsNothing | agent/loop.go:659-690 | in every run a worker that announces or delivers a stored result can start no body |
| LifecycleStarts.ResumeStepsDecide | agent/loop.go:603-655 | for an unsettled deferred call in the refreshed cache of the lease holder, exactly one holds: its resume and the announcement of a stored result are enabled, its redelivery is, or a fresh execution was started and none is |
| ApprovalGap.ApprovedResumeRunsTwice | agent/loop.go:913-929 | a run in which the approval guard admits a second execution with no deferral in between |
| ApprovalGap.HiddenBodyIsNeverSettled | tools/registry.go:953-977 | a run in which a body has executed and neither recovery nor the approval guard ever accounts for it |
| ApprovalGap.ResumeOverHiddenBarrier | agent/loop.go:612-654 | a run in which a resume executes a call again over its hidden barrier |
| EmitterTheorems.SwallowedExactly | agent/loop.go:2805-2822 | after a run was started or resumed the worker's writes take the numbers above its seed, and a write changes nothing if and only if the log held its number of that run at the seeding |
| EmitterTheorems.BarrierSwallowedExactly | agent/loop.go:659-668 | a resume's barrier is swallowed if and only if the log holds the number after its cache's length; the body may start either way |
| EmitterTheorems.FreshRunLosesNothing | agent/loop.go:1088-1093 | a run that was not resumed loses no write |
| EmitterTheorems.EveryDrawIsWritten | agent/loop.go:2805-2822 | in every run that draws each id for an event, whoever resumes whenever, no write is swallowed |
| EmitterTheorems.BareExecutionsAreSwallowed | agent/loop.go:659-680 | in every run the executions of a call without a barrier, past and still permitted, are at most its swallowed barriers |
| EmitterTheorems.ExecutionsAndSwallowedBarriers | agent/loop.go:542-732 | in every run a call executes at most once more often than it was deferred and its barriers were swallowed |
| EmitterTheorems.UnswallowedRunsHaveBarriers | agent/loop.go:542-732 | in runs that swallow no barrier of the call each execution follows a durable barrier of its own and the bound by deferrals holds |
| EmitterTheorems.UnswallowedRunsAreSeparated | agent/loop.go:912-973 | in such runs, when both guards check for open barriers, a deferral lies between any two executions |
| EmitterTheorems.WrittenDrawsSwallowNothing | agent/loop.go:2805-2822 | runs that draw each id for an event are such runs, for every call |
| EmitterTheorems.BodyFollows | agent/loop.go:659-680 | whenever a barrier is due the body may start next: under the new barrier, or under none exactly when the barrier was swallowed |
| EmitterTheorems.SwallowedResumeRuns | agent/loop.go:659-680 | conversely, after a swallowed resume barrier the body runs with no barrier and the log unchanged |
| EmitterGap.OneDeferralRunsAnyNumberOfTimes | agent/loop.go:2637-2639 | for every k, a run in which one id-less call executes k times on one deferral, with no barrier on the log and nothing dangling |
| EmitterGap.ResultIsSwallowed | agent/loop.go:2637-2639 | for every k, a run without crashes in which one of two id-less calls executes k times and no result is ever written |
| Delivery.DeliveryIsOrderIndependent | agent/events.go:359-424 | for every order of publications and reads, what was sent is exactly the passing events up to the cursor; while active the cursor is the first unpublished sequence and the buffer holds exactly the later published ones within the limit |
| Delivery.SameEventsSameDelivery | agent/events.go:359-424 | two orders of the same publications leave active subscribers in the same state |
| Delivery.FlushTracks | agent/events.go:406-424 | flushing stops at the first missing sequence |
| DeliveryLimits.TerminatesExactly | agent/events.go:359-424 | after any run, a publication ends an active subscriber if and only if more passing events become due than the channel has room for, or an event ahead of the first missing sequence makes more than `limit` later sequences wait; it then counts as lagged |
| DeliveryLimits.ActiveExactly | agent/events.go:359-424 | over every run a subscriber is active if and only if no publication of it met either condition, whatever the order of publications |
| DeliveryLimits.LooseDelivered | agent/events.go:362-368 | an active subscriber was sent every unsequenced event that passes its filter, in order of publication, a terminated one the first of them |
| DeliveryLimits.HandOffTerminates | agent/events.go:257-270 | a handoff ends a live subscriber if and only if the passing events it releases do not fit, and then as lagged |
| Replay.HandoffIsGapFree | agent/events.go:223-317 | for every interleaving with registration, loading and reading, `Next` has returned exactly the passing events up to the last one, strictly increasing |
| Replay.NothingIsMissed | agent/events.go:223-317 | once all later events are published, an active drained reader has received every passing event |
| Replay.ResubscribeMissesNothing | agent/events.go:325-339 | reconnecting from the acknowledged cursor continues the list without gap or loss |
| EventHubs.EventSubscription.FlushPending | agent/events.go:406-424 | the flush loop sends the buffered events from the expected sequence on, until one is missing or the channel is full |
| EventHubs.EventSubscription.Offer | agent/events.go:362-394 | one publication is sent, buffered, skipped or terminates the subscriber as its sequence and the channel's room demand; `DeliveryLimits.TerminatesExactly` says when it terminates |
| EventHubs.EventSubscription.HandOver | agent/events.go:257-270 | after a replay the live side drops what the replay covered and sends what raced with it |
| EventHubs.EventHub.Register | agent/events.go:203-212 | a subscription is live, under a new id, before its replay is loaded |
| EventHubs.EventHub.Broadcast | agent/events.go:359-395 | every active subscription is offered the event once and exactly the terminated ones leave the hub |
| EventHubs.Subscription.Next | agent/events.go:276-317 | the two loops of `Next` return the next backlog or live event above the delivered cursor |
| Replay.NextExactly | agent/events.go:276-317 | `Next` returns the first unread event above the cursor and moves the cursor there; without one everything is read, and the answer is waiting, lagged or closed as the live side is |
| Replay.AcknowledgeMeans | agent/events.go:325-334 | acknowledging moves the reconnect cursor to the acknowledged sequence, never backwards and never past what was delivered |
| Replay.AcknowledgmentsCommute | agent/events.go:325-334 | acknowledgments may be repeated and arrive in any order |
| Scheduler.RunRollingBatch | tools/registry.go:277-370 | the batch ends; outcomes keep their calls; started calls are a prefix with their own answers, the rest are aborted only after a stop and filed as cancelled exactly when cancellation was observed; without it some collected answer ended the turn; the schedule was legal |
| Scheduler.NeverTooMany | tools/registry.go:298-353 | at every moment of a legal schedule at most `limit` bodies run and an exclusive one runs alone |
| Scheduler.StartsInOrder | tools/registry.go:343-346 | bodies start in model order, each at most once |
| Scheduler.CollectedOnce | tools/registry.go:303-309 | each answer is collected at most once and only after its body started |
| Scheduler.NothingStartsAfterStop | tools/registry.go:326-342 | nothing starts after cancellation was observed or a terminal answer collected |
| Scheduler.NothingStartsAfterConclusion | tools/registry.go:303-342 | nothing starts after the collection of a result that concludes or defers, by its continuation or its turn flag |
| Skills.CollectLayer | skill/registry.go:397-497 | whatever the map order, the winners are exactly the least entries of each name by rank, provider order and local order; a bad candidate fails the layer |
| Skills.SortEntries | skill/registry.go:472-482 | sorting keeps the entries and orders them |
| Skills.FirstOfEachName | skill/registry.go:483-493 | one entry per name remains, none with an earlier rival |
| Skills.ResolutionIsUnique | skill/registry.go:376-395 | there is one resolution, whatever order maps are walked in |
| Skills.WinsExactly | skill/registry.go:472-493 | an offer wins its name in a layer if and only if no offer of that name has a smaller rank, or the same rank and an earlier provider, or the same provider and an earlier place |
| Skills.OfferedBy | skill/registry.go:397-471 | every offer is a runtime skill with its rank or a valid candidate of the active provider it names |
| Skills.ResolutionSnoc | skill/registry.go:381-393 | a later scope overrides exactly the names it offers |
| SkillRegistry.Registry.Collect | skill/registry.go:328-374 | a complete answer, cached or collected while others change the registry and collect into its cache, is the resolution as of the current revision |
| SkillRegistry.Registry.CollectFresh | skill/registry.go:376-395 | layers read at different moments of one revision give the right answer when all were complete |
| SkillRegistry.Registry.Remember | skill/registry.go:361-369 | the new cache and key list exactly; the answer is cached unless its key is the oldest of a full list; every cached answer stays right |
| SkillRegistry.Registry.CacheIsBounded | skill/registry.go:364-368 | the cache never exceeds its bound |
| SkillRegistry.Registry.RegisterProvider | skill/registry.go:114-150 | a name is taken once per scope; a new provider gets a unique order and starts a new revision |
| SkillRegistry.Registry.Unregister | skill/registry.go:565-578 | the second half of a disposal removes that binding and no other and starts a new revision |
| SkillRegistry.Registry.Dispose | skill/registry.go:565-578 | the first disposal of a binding removes it and starts a new revision, every later one changes nothing, also when the name was taken again |
| SkillRegistry.Registry.DisposeSkill | skill/registry.go:178-187 | disposing a runtime skill removes it and starts a new revision |
| SkillRegistry.SkillsComeAndGo | skill/registry.go:152-190 | disposal takes back exactly the registration |
| SkillRegistry.RegisteredMeans | skill/registry.go:114-150 | registering adds one active provider under its order and changes nothing else |
| SkillRegistry.WithSkillMeans | skill/registry.go:152-177 | a runtime skill is added with its rank, or 250 without one, and nothing else changes |
| SkillRegistry.LaterScopesWin | skill/registry.go:376-395 | the last requested scope that offers a name decides it, over the global scope and all requested before |
| SkillRegistry.Registry.OverlappingCollections | skill/registry.go:328-374 | when one more collection of a request than the bound allows has missed the cache, nothing is cached and the list holds only its key |
| SkillRegistry.Registry.DroppedAgain | skill/registry.go:328-374 | from then on each collection of the request is complete and right, and dropped again |
| SkillRegistry.TwoCollectionsDropTheAnswer | skill/registry.go:361-369 | a new registry with bound one reaches that state |
| SkillRegistry.OthersStay | skill/registry.go:565-578 | every other provider, scope and runtime skill stays as it was |
| SkillRegistry.Registry.InvalidateLocked | skill/registry.go:588-592 | a new revision starts with an empty cache |
| SkillRegistry.CompleteReadsAreWhole | skill/registry.go:437-457 | complete readings of layers with providers under disposal saw none of the disposed ones |
| TextEdit.TextFile.EditText | integration/local/fs.go:283-344 | the edit refuses in the source's order and otherwise writes the decoded edit in the file's own style |
| EditMeaning.RefusedExactly | integration/local/fs.go:315-324 | the text is not found if and only if it occurs nowhere in the decoded file, ambiguous if and only if two occurrences lie apart and not all were asked for |
| EditMeaning.ReplacedExactly | integration/local/fs.go:315-333 | the reported number is the largest number of occurrences that lie apart, and one unless all were asked for |
| EditMeaning.OnlyOneChanges | integration/local/fs.go:325-333 | with one counted, the leftmost occurrence is replaced and the rest of the decoded file kept, then encoded in the file's own style |
| TextEdit.EncodeThenDecode | integration/local/fs.go:671-674 | LF to CRLF to LF is the identity on every text |
| TextEdit.DecodeThenEncode | integration/local/fs.go:671-674 | CRLF to LF to CRLF is the identity on texts whose every line feed follows a carriage return |
| TextEdit.DominantStyle | integration/local/fs.go:671-674 | a file counts as CRLF exactly when more than half of its line feeds belong to a CRLF |
| TextEdit.EditsCommuteWithLineEndings | integration/local/fs.go:313-333 | on pure CRLF files decoding the edited file is editing the decoded file, it stays pure, and its length changes once per replacement |
| TextEdit.EditReadsBackExactly | integration/local/fs.go:313-333 | for any file the edit reads back if and only if the file counts as CRLF, or no CRLF lies in the new text, in a stretch of the file between replaced occurrences, or where these meet |
| TextEdit.FlatHoldsCrlf | integration/local/fs.go:671-674 | a joined text holds a CRLF exactly when a part does or parts meet as carriage return and line feed, empty parts between them included |
| TextEdit.InsertedReturnIsSwallowed | integration/local/fs.go:313-333 | an edit that does not read back |
| TextEdit.ReplaceJoins | integration/local/fs.go:325-330 | replacing all occurrences joins the pieces between them with the new literal |
| TextEdit.PiecesJoinBack | integration/local/fs.go:325-330 | those pieces joined with the old literal are the text |
| TextEdit.PiecesAreFree | integration/local/fs.go:325-330 | no piece holds an occurrence of the literal |
| TextEdit.LimitCovers | integration/local/fs.go:325-330 | replacing a single occurrence and replacing all agree when there is one |

## Left out

- JSON: payloads are decoded; malformed payloads, which the source skips or reports, do not occur.
- Message rendering: one message per surface event from its text parts; media, content blocks and pruning are not modelled.
- Summary blocks: a summary is one text block, as the loop writes it.
- Legacy logs: v1 summaries, `compaction/surface` events, the in-memory compaction region and a non-zero surface spec.
- Recovered tool-call fragments and media: drafts carry text and reasoning only.
- Digests: hashed ids and versions are modelled by what they are computed from, hence injective.
- Integer width: sequences, fences and revisions are unbounded.
- Lifecycle.WriteIsFencedCommit: the fence check and the append are one step here; the source checks under one lock and appends under the next.
- Lifecycle.Wrote: an event answered from the log counts as cached already, which it is unless the cache was dropped and not reloaded; a number of a run is a pair, so no other writer's id is taken for one.
- EmitterTheorems.SwallowedExactly: a call id drawn by the loop is an arbitrary string here, and calls are only admitted under new ids.
- LifecycleInvariant.RunKeeps: an approval decision may be recorded for a call that was never asked about, which the broker refuses; the theorems hold of those runs too.
- LifecycleTheorems.SeparatedExactly: turn ends are not checked and a lease can be taken at any time, so the machine has more runs than the source; the theorems hold of all of them.
- LifecycleTheorems.ExecutionsAreBounded: counts executions of bodies the runtime started; what a body does outside is not modelled.
- ProjectionScope.CacheProjectsLikeStore: one loop at a time writes surface events, as its lease demands; batches that the fold would not keep exactly, by `FoldIsTail`, are refused by the model's runs.
- CompactionLoop.Loop.Compact: the checkpoint saved after the batch, the token threshold and the fallback's own summary text are not modelled.
- CompactionChains.EveryCompactionRewrites: of logs whose results name their sources, as all but recovered ones do; `SelectionLimits` says what happens otherwise.
- RecoveryMethods.InterruptedDrafts: keys are kept in order of first chunk instead of being sorted at the end; `DraftsAreSorted` shows this is the sorted order.
- EventHubs.Subscription: the replay is loaded in order, so the stable sort is the identity; loader errors, invalid replayed events, contexts and closing by the reader are not modelled.
- Scheduler.RunRollingBatch: a context cancelled between two checks is noticed at the next one, as in the source.
- SkillRegistry.Registry.Collect: collections that overlap are modelled as running inside one another, to any depth; contexts are not modelled.
- Skills.RuntimeEntries: runtime skills are not sorted by name, which never decides a winner because a layer holds each name once.
- Notifications, session handles and their goroutines, the approval broker's tables and waiting goroutines, token estimates, model calls, subprocesses, path resolution and atomic file replacement.
