# Verified model of the investigation platform's core

This project models the parts of the platform whose correctness is an argument over many steps, and
proves those arguments. A table below names, for every modelled or stated member, the source lines
it stands for.

| Files | What they model |
|---|---|
| `Connectors.dfy`, `Ingestion.dfy`, `ConnectorRuntime.dfy` | The ingestion runtime: fetch, normalize, deduplicate, archive, publish, commit. `Ingestion` is the specification, one run as a function of what the outside world answers; `ConnectorRuntime` is the imperative runtime, proved to do exactly that. |
| `IngestionSafety.dfy`, `IngestionProgress.dfy`, `IngestionProviders.dfy`, `IngestionDedup.dfy`, `IngestionCounters.dfy` | Theorems over every history of runs: no loss, where loss can come from, watermark order, counter conservation; which providers keep the contract the first two ask for; what the seen-set lets through; what each counter counts and when an attempt stops. |
| `InvestigationState.dfy`, `StatePreview.dfy`, `Router.dfy`, `InvestigationGraph.dfy` | The investigation graph: state and reducers, the preview that replays them, guards, edges and brakes, the node wrapper, and whole runs over nodes that may return anything within a contract. |
| `GraphTermination.dfy`, `GraphBrakes.dfy`, `GraphClock.dfy`, `GraphStatus.dfy`, `GraphOutcome.dfy`, `GraphSharpness.dfy` | Theorems over every run of the graph: termination with an exact bound, the brakes one by one, the wall clock, the status machine, what `completed` means, what the error list records. |
| `Options.dfy`, `Text.dfy`, `QuoteNormalization.dfy`, `QuoteSearch.dfy`, `CitationVerification.dfy` | Whitespace normalization with offset maps, quote search, and citation outcomes. |
| `Upserts.dfy`, `ArtifactStore.dfy` | Deduplicated, chunked upserts in one transaction, and what any history of writes leaves behind. |
| `ReviewPasses.dfy`, `ReviewCoverage.dfy`, `ReviewConvergence.dfy`, `SyncedRows.dfy` | The review stream of the artifact sync: one pass, what its watermark promises over any history, and exactly when repeated passes finish; beside it the one-flush pull-request stream; and the table both are upserted into, over any history of passes, interruptions and resets. |
| `CypherScanner.dfy` | The statement splitter of the database bootstrap. |
| `VersionOrdinal.dfy` | The parser and order embedding of pipeline versions. |
| `FeatureSorting.dfy`, `FeatureHistory.dfy`, `FeatureGuesses.dfy` | Sorting artifacts into features while people decide and artifacts change. |

Conventions. A string is a sequence of characters and every character table of Python
(`str.isspace`, category `Zs`, `str.isdigit`, case folding) is a parameter, constrained only where a
theorem says so. Event times are integers in the source's finest unit, wall-clock times are reals.
What the outside world does (provider, archive, broker, clock, model calls) is an argument: a script
of answers, a delta, an instant. A script that runs out is a process that died there. Where the
source loops and assigns, the model is a method proved equal to a function, and the theorems are
about that function.

## Where the code and its own text differ

The model follows the code. Each of these is proved.

- `connectors/base.py:439-441` marks dedup keys before the batch is yielded. A publish failure
  followed by a replay then drops the records as their own duplicates and commits past them, so the
  at-least-once promise of `services/connector_service.py:862-876` holds exactly when nothing is
  marked ahead of its ack (`AtLeastOnceIffNotMarkedAhead`); every record can be lost this way
  (`EveryRecordCanBeLost`), none is as long as no batch is interrupted
  (`UnbrokenHistoriesKeepThePromise`), and in between `LostIffOrphaned` says exactly which are. The
  variant that marks after the ack is not what the source does; it is modelled to show that it restores
  the promise.
- `services/connector_service.py:988` refuses a commit that would move the watermark back; its comment
  (lines 976-981) says the clamp must have been bypassed for that. The guard only clamps to the watermark
  an attempt started from, so pages out of order within one attempt do reach it
  (`OutOfOrderPagesReachRefusal`, `GuardRulesOutRefusalIff`).
- `connectors/base.py:447-449` has the next run resume exactly where the last one stopped. A provider that
  lists on from the place its cursor names keeps the `fetch` contract over every history
  (`ResumingProvidersAreHonest`), the arXiv connector among them (`ArxivIsHonest`). The Jira connector
  (`connectors/enterprise/jira.py:121-140`) applies an offset counted in one list to the list narrowed by
  the watermark: it keeps the contract exactly if everything the offset skips there was made durable
  before (`JiraIsHonestIff`), and one transient failure makes it pass, unread, as many issues as stand
  before the narrowed list (`JiraRetryLosesWhatItNarrowedBy`).
- `connectors/base.py:374-379` starts over from a cursor of another version, but the runtime still compares
  commits with its watermark (`services/connector_service.py:988`). So the new crawl is published and not
  recorded until it has passed the old watermark (`OldVersionIsCrawledAgain`); interrupted before, it starts
  over again.
- `connectors/base.py:404-406` only counts a record that fails to normalize; nothing publishes it, so
  the no-loss theorem lists it beside the records that `normalize` drops.
- `services/evidence_service.py:228-235` counts overlapping occurrences, unlike `str.count`
  (`OccurrencesCountPlaces`).
- `models/lineage.py:52-54` promises 0 rather than an exception for unreadable versions. A component
  whose leading digits include one without decimal value, such as a superscript two, raises
  (`OrdinalRaisesIffUndecimalDigit`, `SuperscriptRaises`).
- `agents/state.py:246-248` says the router writes the status. With nodes that write none one illegal
  transition is left, that of a run that ships unplanned (`QuietFromQueuedIff`). But the shipped Planner writes `running` when
  it succeeds (`agents/planner/agent.py:130`) and the shipped Report a terminal status
  (`agents/report/agent.py:203`). So a run from the queue makes an illegal move as soon as its Planner
  succeeds (`SucceedingPlannerIsIllegal`); another when a limit was already spent and the Report ships all
  the same (`LateRunShipsUnplanned`); another when the Report declares success for a run still `planning`,
  as after a Planner that timed out (`TimedOutPlannerIsRushed`); and no other (`LegalFromQueuedIff`). A run
  entered with `initial_status_delta`, already `running`, is kept legal by that same Planner, and makes an
  illegal move exactly if the Planner is called and neither blocks nor writes (`LegalFromRunningIff`), as
  when it is silent (`SilentPlannerIsIllegal`).
- The wrapper skips the final pass once the Report has written a terminal status. With nodes that write
  no status a fired guard rules `completed` out (`GuardedRunNeverCompletes`); with that Report a run ends
  `completed` exactly if the Report says so (`CompletedDespiteGuardIff`, `ReportedStatusStands`).
- The shipped Critic's payload (`agents/critic/agent.py:122-136`) has no `verdict` key, so no rewrite
  is ever dispatched (`VerdictFreeRunsNeverRewrite`), the final pass never says `completed`
  (`UnspokenFinalPassDoesNotComplete`), and a shipped run completes exactly if its Report says so
  (`ShippedRunCompletesIff`).
- A plan too large for the step budget goes to the Report with no record of it, although
  `plan_exceeds_step_budget` is declared for that; the run can end `completed`
  (`OversizedPlanCanComplete`).
- `_merged` (`agents/graph.py:442-468`) replaces `prompt_versions` where the reducer merges it. No
  guard reads that key (`PreviewIsFaithful`); the preview is the real state exactly when nothing is
  lost by replacing (`PreviewAgreesOnVersionsIff`).
- `services/artifact_sync.py:392-397` says the review fan-out always finishes. It does exactly when
  no second holds a full chunk of 150 with more to come (`QueuesAreFinishedIff`), and a walk cut by
  its page bound never moves the watermark at all (`TruncatedWalksStall`).
- `services/feature_service.py:212-218` calls sorting safe to run after every sync. It reads in one
  transaction and inserts in another, so one decision about one of its pairs in between makes the insert
  fail and costs the pass every row (`DecisionInBetweenRefusesThePass`); decisions themselves are never
  lost (`DecisionsSurvive`). And a link it inferred is not revisited when the artifact changes, so it can
  name evidence that is gone (`StaleLinkExample`; `InferredLinkIsRightIff` says exactly when it is right).
- `connectors/github/reader.py:311-329` documents the stop as "older than the watermark"; the code
  also stops at an item equal to it. The model has the strict comparison.

## Model

| member | source | states |
|---|---|---|
| ConnectorRuntimes.RunState.BeginAttempt | services/connector_service.py:717-725 | A new attempt starts its per-attempt counters at zero and keeps cursor, acks and totals |
| ConnectorRuntimes.RunState.AbsorbStats | services/connector_service.py:727-745 | Totals move by the difference to the last absorbed counters, so a retried attempt is not counted twice |
| ConnectorRuntimes.ConnectorRuntime.IsDuplicate | connectors/base.py:420-442 | True iff either key is in the seen-set; otherwise both keys are marked on the way out |
| ConnectorRuntimes.ConnectorRuntime.NormalizeAndDedup | connectors/base.py:390-418 | The emitted records, the four counters and the seen-set after a page |
| ConnectorRuntimes.ConnectorRuntime.SiftInterrupted | connectors/base.py:390-442 | The marks a page leaves when an exception ends its sifting, down to the keys of the record it was at |
| ConnectorRuntimes.ConnectorRuntime.ArchiveRecord | services/connector_service.py:897-965 | An archived or deferred record becomes an event; a rejected one goes to the dead-letter topic and is counted before it is sent |
| ConnectorRuntimes.ConnectorRuntime.CommitCursor | services/connector_service.py:967-1012 | A cursor that falls behind is refused before the store is asked; otherwise the store and the in-memory cursor move together, or neither does if the write fails |
| ConnectorRuntimes.ConnectorRuntime.PersistBatch | services/connector_service.py:852-895 | Archive all, publish all, and only then commit; every early exit, a failing commit included, leaves the cursor as it was |
| ConnectorRuntimes.ConnectorRuntime.DrainOnce | services/connector_service.py:839-850 | One attempt from the last committed cursor, rewound by the overlap, equals the specification's drain |
| ConnectorRuntimes.ConnectorRuntime.CheckpointCursor | services/connector_service.py:1104-1127 | Re-commits the in-memory cursor unless it is empty |
| ConnectorRuntimes.ConnectorRuntime.RunConnector | services/connector_service.py:786-837 | One whole run, retries and failure handling included, leaves exactly what the specification says durable |
| Connectors.GuardIsMaximum | connectors/base.py:330-372 | The guard raises a page's watermark to the floor and changes nothing else; advancing compares watermarks |
| IngestionSafety.SiftAccounts | connectors/base.py:390-442 | Every record of a page is emitted, not meant to be emitted, or shadowed by a marked key |
| IngestionSafety.ArchiveKeepsAll | services/connector_service.py:897-965 | A batch archived to the end left each record exactly where the archive's answer for it belongs: an event with its payload stored, an event without, or the dead-letter topic |
| IngestionSafety.PersistHandles | services/connector_service.py:878-895 | The cursor moves only if every record of the batch has been handled |
| IngestionSafety.RunIsSafe | services/connector_service.py:786-895 | One run, however it ends, keeps every record up to the stored watermark accounted for, and so every page that it or a run before it made durable |
| IngestionSafety.NoLossWithoutDedup | services/connector_service.py:852-895 | Without a seen-set: over any history of runs, retries, archive deferrals, crashes at any point and halts, and any provider that claims only what it yielded in this attempt or in a page made durable before, every record between the initial and the stored watermark is on a topic or was not to be emitted |
| IngestionSafety.LossIsConfinedToMarks | connectors/base.py:420-442 | With a seen-set: a record below the stored watermark of which not even a duplicate got through shares a key with a marked record that itself never got through |
| IngestionSafety.FinishedPageHandlesItsMarks | services/connector_service.py:878-895 | A page made durable to its end leaves no mark whose record did not get through, in every mode |
| IngestionSafety.UnbrokenHistoriesKeepThePromise | services/connector_service.py:862-876 | A history in which no batch was interrupted keeps the promise even with marks set ahead |
| IngestionSafety.LostIffOrphaned | connectors/base.py:420-442 | With marks ahead: a record below the stored watermark is lost iff it did not get through, its keys are marked, and every mark on them is an orphan |
| IngestionSafety.EveryRecordCanBeLost | connectors/base.py:439-441 | For every record there is an honest provider and a two-run history that commits past it unpublished |
| IngestionSafety.AtLeastOnceIffNotMarkedAhead | services/connector_service.py:862-876 | The at-least-once promise holds iff keys are not marked ahead of the ack |
| IngestionProviders.RestartingProvidersAreHonest | connectors/base.py:126-153 | A provider that starts over in every attempt keeps the contract over every history |
| IngestionProviders.ListingIsHonest | connectors/base.py:126-153 | Listing on from a place is within the contract where everything listed before it was made durable |
| IngestionProviders.ResumingProvidersAreHonest | connectors/base.py:444-455 | A provider that lists on from the place its cursor names keeps the contract over every history: budgets, retries, crashes and refused commits included |
| IngestionProviders.ArxivIsHonest | connectors/research/arxiv.py:116-173 | Whatever page sizes, failures and crashes its runs meet, the arXiv connector keeps the contract |
| IngestionProviders.ArxivDoesNotRestart | connectors/research/arxiv.py:127 | From a committed offset it does not yield again what lies before, so a contract per attempt would not be its contract |
| IngestionProviders.JiraIsHonestIff | connectors/enterprise/jira.py:119-181 | An attempt keeps the contract iff everything its offset skips in the narrowed list was made durable before, or nothing is served |
| IngestionProviders.JiraRetryLosesWhatItNarrowedBy | connectors/enterprise/jira.py:119-181 | After one transient failure the run's watermark passes exactly as many unread issues as stand before the rewound watermark of its first page |
| IngestionProgress.RunAscends | services/connector_service.py:967-1012 | A run's commits never step back, and the store holds what the runtime last committed |
| IngestionProgress.WatermarkNeverMovesBack | services/connector_service.py:1181-1193 | Over every history, whatever the page order, the stored watermark and the commit log never step back |
| IngestionProgress.IdlePollsKeepWatermark | connectors/base.py:330-388 | Any number of idle polls that hand back the rewound cursor leave the stored watermark where it was |
| IngestionProgress.GuardRulesOutRefusalIff | services/connector_service.py:980-1000 | A page that passed the guard can be refused iff something newer than the floor was committed |
| IngestionProgress.OutOfOrderPagesReachRefusal | services/connector_service.py:980-1000 | An attempt of an honest provider with two pages, both unchanged by the guard and both published, the second of which is refused with nothing undone |
| IngestionProgress.OldVersionIsCrawledAgain | connectors/base.py:330-379 | From a cursor of another version the provider is asked from the beginning and not clamped, but a page behind the old watermark is published without its cursor being committed |
| IngestionProgress.FailingRunEndsAs | services/connector_service.py:786-837 | A run that fails at every first request ends as transient, or as a quota halt after a long pause or an open circuit, and changes nothing but the checkpoint |
| IngestionProgress.QuotaHaltRecordsThePosition | services/connector_service.py:1104-1127 | A quota halt commits the position once more iff it has a watermark, a token or a checkpoint |
| IngestionProgress.SiftConserves | connectors/base.py:390-418 | Every record of a page falls under exactly one of emitted, dropped, duplicate, dead-lettered |
| IngestionProgress.CountersConserve | services/connector_service.py:717-745 | `fetched` is acks plus dropped plus duplicates plus dead-lettered plus exactly what interrupted batches left; `emitted` counts acks |
| IngestionProgress.CleanRunAddsUp | services/connector_service.py:878-895 | After a run that never failed the four counters add up to `fetched` |
| IngestionDedup.RecordIsSkippedIff | connectors/base.py:420-442 | The next mapped record of a page is skipped iff its identity or content hash was marked when the page came, or the page has emitted one with the same identity or hash |
| IngestionDedup.InterruptedPageLeavesItsMarks | connectors/base.py:434-441 | An exception while a page is sifted leaves the marks of the records before and the reached keys of the record it was at, and nothing else |
| IngestionDedup.DurablePagesAreNotRepeated | connectors/base.py:420-442 | A page made durable to its end and yielded again emits nothing while the seen-set forgets nothing of it |
| IngestionDedup.NothingIsPublishedTwice | connectors/base.py:420-442 | Over any history in which the seen-set forgets nothing no two messages on the raw topic share an identity or a content hash |
| IngestionCounters.CountersCountWhatTheyName | services/connector_service.py:717-745 | Over a whole run, retries included, `fetched`, `dropped`, `dlq` and `pages` are exactly the records, the dropped, the unmappable or rejected, and the pages of what was taken |
| IngestionCounters.BatchIsThroughIff | services/connector_service.py:878-895 | A batch is through iff every archive answer lets it, every event is acked and the cursor is written or falls behind; exactly then, unless it falls behind, the cursor moves |
| IngestionCounters.AttemptStopsAtItsBudget | connectors/base.py:444-455 | An attempt goes on exactly while its pages and emitted records are within the budget; one that ends before its provider has used it up |
| InvestigationGraph.StampsOnlyStatus | agents/graph.py:408-439 | The stamp always writes a status and never anything else |
| StatePreview.AppendedKeys | agents/graph.py:117-135 | The keys derived from the annotations as append-reduced are the three list keys that append, not the step count and not the plan |
| InvestigationState.LedgersAddUp | agents/state.py:191-203 | Ledgers add up field by field, in any order, and an empty one adds nothing |
| StatePreview.Merge | agents/graph.py:442-468 | The loop over the delta's keys, in whatever order they come, builds the same preview, absent keys included |
| StatePreview.ApplyIsReduced | agents/state.py:201-268 | The typed reducers do what the annotations declare, key by key |
| StatePreview.PreviewAgrees | agents/graph.py:442-468 | The loop, written apart from the reducers, gives their result on every key but `prompt_versions`, whatever keys are absent |
| StatePreview.PreviewAgreesOnVersionsIff | agents/graph.py:442-468 | Preview and reduced state are equal iff replacing `prompt_versions` drops no key |
| InvestigationGraph.PreviewIsFaithful | agents/graph.py:442-468 | Guards, final status and edges answer the same on the dictionary the loop builds as on the one the reducers build |
| InvestigationGraph.StampSeesTheNextState | agents/graph.py:426-439 | What the stamp is told by the guards is what the next edge will be told, time apart |
| Router.FirstStageIsNamedFirst | agents/router.py:566-580 | The re-entry stage of an unlabelled critique is that of the first finding that names one |
| Router.GuardsFireIff | agents/router.py:209-287 | A guard fires iff the status is terminal, an error is unrecoverable, the steps are used up, the deadline is reached or input plus output tokens reach the budget; which of them decides reason, route and status |
| Router.PlannerLeadsToCollectorIff | agents/router.py:381-396 | A plan goes to the Report iff it is too large, to the Collector iff it fits and a step needs fresh data, and to the Retriever otherwise |
| Router.RewriteReentersAtTheStageNamed | agents/router.py:566-580 | A rewrite re-enters at the stage the critique, or its first labelled finding, names; at Insight for any other or none |
| Router.CountIsOpenFindings | agents/router.py:542-549 | The count a brake compares is the number of findings that are not resolved |
| Router.TerminalStatusIff | agents/router.py:602-633 | Exactly when the final status is failed, cancelled or completed, on the fields of the state; otherwise it is completed with findings |
| GraphTermination.GuardLatches | agents/router.py:209-287 | A guard that fired fires in every later state, and one that ended the run still ends it |
| GraphTermination.GuardsStayFired | agents/router.py:209-287 | Over the rest of any run nothing un-fires a guard |
| GraphTermination.StepRevisions | agents/graph.py:348-382 | Only a called Critic moves the counter, by one, iff the critique it found asked for a rewrite |
| GraphTermination.SkippedGoesOn | agents/graph.py:198-201 | A node the guard skipped is followed by the exit path or the end |
| GraphTermination.StepDescends | agents/graph.py:521-595 | Every visit, whatever the node returns, shortens what is left of the run |
| GraphTermination.RunEnds | agents/graph.py:476-595 | From any state and place a run is over within the visits its revisions leave it |
| GraphTermination.Termination | agents/graph.py:476-595 | Every investigation is over within nine visits and five per allowed revision |
| GraphTermination.CriticRunsAtMostOncePerRevision | agents/router.py:461-490 | The Critic is visited at most `max_critic_revisions + 1` times |
| GraphSharpness.TerminationBoundIsExact | agents/graph.py:476-595 | For every revision cap some run of lawful nodes makes all those visits |
| GraphBrakes.StepCeilingAlone | agents/router.py:258-265 | Whatever the edges do, no more unexempt nodes run than the step ceiling leaves room for |
| GraphBrakes.TokenCeilingAlone | agents/router.py:270-287 | Whatever the edges do, nodes that run in their own right overspend the token budget by less than one of them may spend |
| GraphBrakes.RewriteIsDispatchedIff | agents/router.py:461-491 | A visit to the Critic sends the run back iff the standing critique asks for it, no guard and no cap is against it, the artifact changed and open findings fell |
| GraphBrakes.ArtifactBrakeAlone | agents/router.py:526-540 | Whatever the cap and the findings, an artifact that rewrites do not change is rewritten at most once, passes without a critique apart |
| GraphBrakes.StepHistory | agents/graph.py:363-377 | Only a called Critic node lengthens the history, by the one critique it hands back, and not when it fails |
| GraphBrakes.ProgressBrakeAlone | agents/router.py:551-563 | Whatever the revision cap, re-entries are bounded by the open findings of the last critique plus the Critic passes that produced none |
| GraphBrakes.FirstCritiqueBoundsRewrites | agents/router.py:551-563 | From an empty history, re-entries are bounded by the first critique's open findings plus one plus the failed passes |
| GraphClock.SlicesAreUsable | agents/graph.py:309-345 | Every slice lies between the floor and the run's timeout and ends at the deadline; on the exit path it is what is left or the grace, whichever is more |
| GraphClock.WorkerSlice | agents/graph.py:309-333 | A called worker outlives the deadline by at most the one-second floor |
| GraphClock.RunIsOnTime | agents/graph.py:309-345 | At every point of a prompt run the clock is within the bound of the place it stands at |
| GraphClock.WallClockBound | agents/graph.py:309-345 | A run of nodes that keep to their slices is over by the deadline plus one second plus twice the exit grace |
| GraphStatus.StatusAfter | agents/graph.py:265-283 | The status after a visit, for skipped, self-stamping and silent nodes |
| GraphStatus.LastVisitCloses | agents/graph.py:427-439 | The visit that ends a run leaves a terminal status iff the called node did not write an open one |
| GraphStatus.EndIsTerminalIff | agents/router.py:602-633 | A run that reaches its end carries a terminal status iff the last node it called did not write an open one |
| GraphStatus.TerminalIsAbsorbing | agents/graph.py:199-201 | After a terminal status nothing changes but one record, and two visits end the run |
| GraphStatus.StepFits | agents/router.py:588-599 | With the statuses the shipped nodes write, a visit from a fitting status is legal iff the Report does not declare success for a run still planning, and leaves a fitting status |
| GraphStatus.FittingRunsAreLegalIff | models/investigation.py:57-99 | Past its Planner a shipped run makes only legal transitions iff the Report never does so |
| GraphStatus.LegalFromQueuedIff | agents/planner/agent.py:130 | A shipped run from the queue makes only legal transitions iff a called Planner writes no status, the run does not ship unplanned and the Report does not rush |
| GraphStatus.LegalFromRunningIff | agents/graph.py:598-606 | A shipped run entered as `running` makes an illegal transition iff its Planner is called and neither blocks nor writes `running` itself |
| GraphStatus.QuietFromQueuedIff | agents/state.py:246-248 | With nodes that write no status a run from the queue makes only legal transitions iff it does not ship unplanned |
| GraphStatus.SucceedingPlannerIsIllegal | agents/planner/agent.py:130 | A lawful shipped run in which the called Planner writes `running` from `queued` |
| GraphStatus.SilentPlannerIsIllegal | agents/graph.py:598-606 | A lawful shipped run entered as `running` whose silent Planner takes it back to `planning` |
| GraphStatus.LateRunShipsUnplanned | agents/graph.py:198-201 | A lawful run picked up at its deadline: the Planner is skipped and whatever the Report ships is an illegal transition from `queued` |
| GraphStatus.TimedOutPlannerIsRushed | agents/report/agent.py:203 | A lawful run whose Planner times out at the deadline and whose Report declares success while it is `planning` |
| GraphOutcome.FinalPassCompletesIff | agents/router.py:602-633 | The final pass says `completed` iff nobody cancelled, no guard fired before or after, and there is a report with an accepted critique and no open finding |
| GraphOutcome.GuardedRunNeverCompletes | agents/graph.py:408-439 | With quiet nodes, once a guard has fired the run never ends `completed` |
| GraphOutcome.FinalPassOnlyAnnotates | agents/graph.py:397-405 | The final pass leaves report and revision counter alone, and ends the run |
| GraphOutcome.ErrorsAfter | agents/graph.py:286-302 | A visit appends what a called node said and then the guard's record, if that reason is not yet recorded |
| GraphOutcome.CalledNodeLeaves | agents/graph.py:215-262 | What a called node is charged in steps and tokens and what of its answer the run takes over, key by key; a skipped node changes none of it, and the final pass no report |
| GraphOutcome.FiredGuardIsRecorded | agents/graph.py:265-306 | A fired guard's record is in the errors of every continuation |
| GraphOutcome.OneRecordPerReason | agents/graph.py:265-306 | Over a whole run the wrapper adds at most one record per reason, and none for an oversized plan |
| GraphOutcome.OversizedPlanCanComplete | agents/router.py:381-395 | A rejected plan reaches the Report with no record and the run can end `completed` |
| GraphOutcome.CompletedDespiteGuardIff | agents/report/agent.py:193-208 | Once a guard has fired, a run from any place ends `completed` iff a called Report wrote that itself |
| GraphOutcome.ReportedStatusStands | agents/report/agent.py:193-208 | A terminal status written by the Report is final and the final pass is skipped |
| GraphOutcome.VerdictFreeRunsNeverRewrite | agents/critic/agent.py:122-136 | Critiques without a verdict never dispatch a rewrite, whoever writes the status |
| GraphOutcome.UnspokenFinalPassDoesNotComplete | agents/router.py:630-633 | Without a verdict the final pass does not say `completed` |
| GraphOutcome.ShippedRunCompletesIff | agents/report/agent.py:193-208 | With the shipped Planner, Critic and Report a run ends `completed` iff a called Report wrote that, whatever the final pass found |
| QuoteNormalization.NormalizeWithOffsets | services/evidence_service.py:123-169 | The loop returns the normal form and, for every character of it, where its run starts and ends |
| QuoteNormalization.OffsetsNameTheirRuns | services/evidence_service.py:123-169 | The runs are adjacent, disjoint and in order; a collapsed space owns its whole whitespace run |
| QuoteNormalization.BufferOfSlice | services/evidence_service.py:123-169 | From a visible character on, normalization commutes with slicing |
| QuoteNormalization.Tighten | services/evidence_service.py:112-121 | Whitespace around a slice does not show in its normal form |
| QuoteNormalization.NormalizedIsJoinedWords | services/evidence_service.py:112-121 | The loop computes what splitting at whitespace and joining with single spaces would |
| QuoteNormalization.SameNormalFormIffSameWords | services/evidence_service.py:94-121 | Two texts normalize alike iff they have the same words in the same order |
| QuoteNormalization.NormalFormIsStable | services/evidence_service.py:112-121 | Normalizing twice changes nothing |
| QuoteNormalization.EitherTableSeparates | services/evidence_service.py:94-110 | Between two visible characters a character becomes one plain space iff either table calls it a space |
| QuoteSearch.FindQuote | services/evidence_service.py:205-244 | The loop returns the specified span |
| QuoteSearch.CountFrom | services/evidence_service.py:228-235 | The counting loop counts every match from the first on, overlapping ones included |
| QuoteSearch.LocatedIsFirstSlice | services/evidence_service.py:205-244 | A returned span is a slice that normalizes to the quote, and no such slice comes earlier |
| QuoteSearch.LocatedIffSomeSlice | services/evidence_service.py:205-244 | A span is returned iff some slice of the content normalizes to the non-empty normalized quote |
| QuoteSearch.OccurrencesCountPlaces | services/evidence_service.py:228-235 | `occurrences` is the number of places in the document where the quote stands |
| CitationVerification.WindowSearch | services/evidence_service.py:827-857 | Searching the claimed window finds exactly what the document has between its ends |
| CitationVerification.OutcomesPartition | services/evidence_service.py:773-825 | What each outcome says of the stored text, both ways |
| CitationVerification.SpansResolve | services/evidence_service.py:773-857 | Every span handed out is a slice that says the quote; a verified one lies in the claimed range |
| CitationVerification.VerifiedIsFoundInDocument | services/evidence_service.py:773-857 | A verified citation is also found by whole-document search, no later |
| CitationVerification.RewrappingIsInvisible | services/evidence_service.py:94-121 | Re-wrapping a quote changes neither outcome nor offsets |
| CypherScanner.CypherStatements | scripts/init_databases.py:224-283 | The index-and-quote loop returns what the scanner specification says |
| CypherScanner.SplittingUndoesJoining | scripts/init_databases.py:224-283 | Splitting joined statements returns them verbatim, literals included |
| CypherScanner.SplittingFindsEveryStatement | scripts/init_databases.py:224-283 | Whatever whitespace and comments stand around statements or break them, every statement is returned, in order, without its comments |
| CypherScanner.EveryScriptIsSplitIntoItsEntries | scripts/init_databases.py:224-283 | Every script there is falls into such entries, so comments, surrounding whitespace and empty entries are all it ever loses |
| CypherScanner.StatementsFormScript | scripts/init_databases.py:224-283 | Whatever the script, each returned statement is trimmed, non-empty and free of top-level separators and comments |
| CypherScanner.SplittingIsIdempotent | scripts/init_databases.py:224-283 | Joining what was returned and splitting again changes nothing |
| VersionOrdinal.TakeDigits | models/lineage.py:64-68 | The inner loop takes the longest prefix of digits |
| VersionOrdinal.PipelineVersionOrdinal | models/lineage.py:40-75 | The loops return the specified ordinal, or raise |
| VersionOrdinal.OrdinalOfPrinted | models/lineage.py:40-75 | A printed version has the ordinal major times a million plus minor times a thousand plus patch, whatever suffixes and further components follow |
| VersionOrdinal.OrdinalOfShort | models/lineage.py:72-73 | A version of one or two components reads as if zeros followed |
| VersionOrdinal.AsciiIsFaithful | models/lineage.py:62-71 | What the theorems assume of the digit table holds of the one that knows ASCII |
| VersionOrdinal.EmbedsExactlyBelowThousand | models/lineage.py:40-75 | Ordinals order versions below a bound correctly iff that bound is at most 1000 |
| VersionOrdinal.OrdinalRaisesIffUndecimalDigit | models/lineage.py:61-71 | The function raises iff the leading digits of the first unreadable component include one without decimal value |
| VersionOrdinal.MalformedNeverBeats | models/lineage.py:52-54 | A component without digits makes the ordinal 0, below every triple but 0.0.0, with which it ties |
| VersionOrdinal.SuperscriptRaises | models/lineage.py:61-71 | A lone digit without decimal value raises |
| Upserts.Unique | services/artifact_store.py:104-119 | The dictionary keeps one payload per identity, the last |
| Upserts.WriteChunks | services/artifact_store.py:67-71 | Chunk by chunk, every statement is accepted and together they write what one would, unless a referenced row is missing |
| Upserts.WritingInPartsIff | services/artifact_store.py:144-201 | Two writes equal one iff they agree on the fixed columns of what is new to both |
| Upserts.ChunksAreInvisible | services/artifact_store.py:67-71 | Cutting a deduplicated batch anywhere changes nothing |
| ArtifactStores.RawBatchIsRefusedIff | services/artifact_store.py:104-119 | One statement with a batch that is not deduplicated is refused iff the batch repeats an identity |
| Upserts.BatchIsOneByOneIff | services/artifact_store.py:144-201 | Deduplicating first equals row-by-row upserting iff no new identity comes with two fixed parts |
| Upserts.HistoryOfARow | services/artifact_store.py:171-198 | After any history mutable columns come from the last write and `occurred_at` from the first, for good |
| Upserts.ReplayIsInvisible | services/artifact_store.py:1-13 | Over a source that stands still two histories leave the same table iff they bring the same new identities and skip none that changed |
| Upserts.PartialPassesThenComplete | services/artifact_store.py:1-13 | Any partial writes followed by a complete one equal that one |
| ArtifactStores.ArtifactStore.Write | services/artifact_store.py:80-102 | People, then artifacts, in one transaction: succeeds iff every actor is stored or arrives with the batch, and otherwise changes nothing |
| ArtifactSync.SyncStream.Advance | services/artifact_sync.py:180-193 | The watermark is set one second behind the newest |
| ArtifactSync.SyncStream.ResetCursor | services/artifact_sync.py:195-225 | Forgets the position and says whether there was one |
| ArtifactSync.SyncStream.SyncPullRequests | services/artifact_sync.py:339-368 | One pull-request pass equals the specified pass, interrupted or not, result included |
| ArtifactSync.CollectMapped | services/artifact_sync.py:347-361 | The loop returns the rows that map, by node id and creation time, their latest update and the payloads seen |
| ArtifactSync.CollectChanged | services/artifact_sync.py:405-414 | The walk loop returns the known changed pull requests and how many it saw |
| ArtifactSync.SyncStream.FanOut | services/artifact_sync.py:431-456 | The read loop with its flushes stores what the specification says, interrupted or not |
| ArtifactSync.SyncStream.SyncReviews | services/artifact_sync.py:370-463 | One pass equals the specified pass, interrupted anywhere or not, counters and completeness included |
| ReviewCoverage.WalkTakesTheNewest | connectors/github/reader.py:311-329 | A walk is the newest of what is newer than the watermark, as many as its pages hold |
| ReviewCoverage.ReadsAreKept | services/artifact_sync.py:431-456 | Flushing as it goes drops nothing; an interrupted pass stores only reviews it read |
| ReviewCoverage.PassKeepsCoverage | services/artifact_sync.py:370-463 | A pass, however it ends, loses nothing, keeps everything behind the watermark read, and never moves it back |
| ReviewCoverage.NewestIsTheMaximum | services/artifact_sync.py:347-361 | The running `newest` is the latest update among the mapped pull requests |
| ReviewCoverage.PullPassKeepsCoverage | services/artifact_sync.py:339-368 | The pull-request stream moves its watermark only after a complete walk, which stores every outstanding row; nothing at or behind it is ever missing |
| ReviewCoverage.WindowDecidesIff | services/artifact_sync.py:254 | Two windows lead to the same passes iff there is a watermark; without one, as after a reset, the window decides |
| ReviewConvergence.WatermarkOutranksTheWindow | services/artifact_sync.py:195-205 | From a watermark a clean complete pull-request pass stores exactly the rows with a node id and a creation time that are newer than it, whatever window it is given |
| ReviewConvergence.WatermarkOutranksTheWindowForReviews | services/artifact_sync.py:195-205 | From a watermark a clean complete review pass within one chunk stores exactly the reviews of the newer pull requests with a number and a node id, whatever window it is given |
| ReviewCoverage.NothingBehindTheWatermarkIsUnread | services/artifact_sync.py:16-33 | Over any history of passes, interruptions, resets and changes at the source, every pull request newer than the window of the passes that had no position, and at or behind the watermark, has its reviews stored |
| ReviewConvergence.RoomyQueuesAreFinished | services/artifact_sync.py:392-397 | Without a crowded second every outstanding pull request is read in finitely many passes |
| ReviewConvergence.CrowdedSecondStalls | services/artifact_sync.py:65-71 | A second that fills a chunk with more after it is never passed: the newest is never read |
| ReviewConvergence.QueuesAreFinishedIff | services/artifact_sync.py:370-463 | Repeated passes finish the queue iff no second is crowded |
| ReviewConvergence.PassesStoreWhatTheyRead | services/artifact_sync.py:431-463 | After any number of passes exactly the reviews of the pull requests read have been added |
| ReviewConvergence.RoomyStreamsFinish | services/artifact_sync.py:370-463 | Over a list that stands still, with complete walks and no crowded second, every outstanding review ends up stored |
| ReviewConvergence.TruncatedWalksStall | services/artifact_sync.py:416-420 | A walk cut by its page bound never moves the watermark: any number of passes stores the reviews of one and the same chunk |
| SyncedRows.FlushesAreStored | services/artifact_sync.py:431-456 | What a fan-out stores, interrupted or not, is exactly what the batches it flushed hold |
| SyncedRows.PassReportsWhatItReads | services/artifact_sync.py:431-456 | A fan-out read to its end reports every payload it read and every row of every flush |
| SyncedRows.HistoryWritesWhatItStores | services/artifact_sync.py:339-463 | Over any history of passes of both streams, interruptions and resets, the rows stored are exactly those of the batches written |
| SyncedRows.HistoryKeepsTableInSync | services/artifact_store.py:1-13 | After any such history the table holds exactly the stored rows, with what may change about them as the source has it |
| SyncedRows.TablesAgreeIff | services/artifact_sync.py:195-225 | Two such histories leave the same table iff they have stored the same rows: how passes were cut, reset and repeated does not show |
| SyncedRows.ResyncIsInvisible | services/artifact_sync.py:195-225 | Any interrupted passes, a reset, and enough clean passes leave the table the clean passes would have left by themselves |
| FeatureMatching.CleanTerms | services/feature_service.py:510-516 | The loop keeps the stripped, folded terms as specified |
| FeatureMatching.CleanedAreTheLongTerms | services/feature_service.py:510-516 | Kept are the terms of three characters or more, all of them, once each |
| FeatureMatching.MatchNamesTheStrongest | services/feature_service.py:550-565 | A match names the strongest class with evidence, its term is evidence, and no match means no evidence |
| FeatureMatching.GuessSaysWhatItRestsOn | models/feature.py:116-122 | A guess is worth 0.8 if a branch holds a term, 0.55 if only a title does, 0.4 if only a path; its evidence is the class and the term, clipped, and it has no author |
| FeatureSorting.SortArtifact | services/feature_service.py:253-283 | The inner loop proposes, protects and counts as specified |
| FeatureSorting.FeatureService.ScanProject | services/feature_service.py:212-283 | The first transaction and the loops find what the specified pass finds, with its counters; unknown project and no features included |
| FeatureSorting.FeatureService.InsertGuesses | services/feature_service.py:289-291 | The second transaction inserts all rows, or none if one of the pairs has been linked since |
| FeatureSorting.FeatureService.SortProject | services/feature_service.py:212-299 | With nothing in between, every row found is inserted and reported |
| FeatureHistory.PassIsAllOrNothing | services/feature_service.py:289-291 | Whatever happens between the two transactions, a pass inserts all it found iff none of its pairs was linked meanwhile, and nothing otherwise |
| FeatureHistory.DecisionInBetweenRefusesThePass | services/feature_service.py:344-380 | One decision about one of its pairs in between costs a pass every row |
| FeatureSorting.FeatureService.DecideMembership | services/feature_service.py:344-380 | A decision overwrites or creates the link at confidence one, keeping its evidence; missing rows are refused |
| FeatureHistory.PassAddsItsProposals | services/feature_service.py:253-283 | A pass adds, pair by pair, a guess iff the pair is new and matches |
| FeatureHistory.PassLinksTheProjectsEvidence | services/feature_service.py:212-283 | A pass of a project gives a pair a row iff feature and artifact are of that project, unlinked, and a term of the feature occurs in the artifact |
| FeatureHistory.LinkedCountsTheRows | services/feature_service.py:262-283 | `linked` is the number of rows added |
| FeatureHistory.ReportCountsThePairs | services/feature_service.py:264-271 | `protected` counts the pairs somebody decided about and `already_linked` those linked otherwise, features without terms apart |
| FeatureHistory.SecondSortLinksNothing | services/feature_service.py:212-299 | A second undisturbed pass changes no link and reports the first one's new rows as already there |
| FeatureHistory.DecisionsSurvive | services/feature_service.py:344-380 | Over any interleaving of reads, inserts, decisions and arrivals a pair's link is its last decision once there is one, and before that unchanged or a guess |
| FeatureHistory.ConfidenceKeepsTelling | models/feature.py:104-122 | Confidence is 1.0 exactly on decisions, and otherwise what the class is worth |
| FeatureGuesses.InferredLinksWereGuessed | services/feature_service.py:212-299 | Every inferred link of every history was there at the start or is the guess for feature and artifact as they stood when some pass read them |
| FeatureGuesses.StillRightIff | services/feature_service.py:550-565 | A class names the strongest evidence an artifact holds iff matching the artifact would name that class |
| FeatureGuesses.InferredLinkIsRightIff | services/feature_service.py:212-299 | After any history an inferred link still names the strongest evidence iff matching the present rows would name its class |
| FeatureGuesses.ArrivalKeepsGuessesIff | services/artifact_store.py:171-198 | An artifact stored anew keeps all inferred links right iff it yields, for each of them, the guess the link is |
| FeatureGuesses.InferredLinksNameTheStrongest | services/feature_service.py:550-565 | Along arrivals that agree in that sense every inferred link names the strongest evidence |
| FeatureGuesses.StaleLinkStays | services/feature_service.py:264-271 | Whatever an artifact changes to, a later pass leaves the link the earlier one guessed |
| FeatureGuesses.StaleLinkExample | services/feature_service.py:264-271 | A title that stops mentioning the feature leaves a title link with no evidence |

## Left out

- Real input and output (databases, caches, brokers, object stores, HTTP, LangGraph scheduling): replaced by maps, logs, scripts of answers and a superstep function. With an empty fan-out table the graph runs one node at a time, which is what `InvestigationGraph.Step` does.
- `retry_page` and the circuit breaker are not part of this model: a run is any list of attempts, each re-entering the drain, and no attempt at all is an open circuit.
- `BaseConnector.run` as a generator: its turns are unrolled into the drain that consumes them, so a page is fetched, sifted and persisted in one step.
- IngestionSafety.NoLossWithoutDedup: the provider's records are one fixed set, and a page's watermark covers only what was yielded by then, in the attempt or in a page made durable before; a provider that breaks that contract, as the Jira connector can, is not covered. Two records at one instant on either side of a page's end break it to the letter.
- ConnectorRuntimes.ConnectorRuntime.CommitCursor: a commit that takes effect and still reports a failure is not told apart from one that took effect before the process died; of the two only a retry by the runtime would differ, and it retries connector errors alone.
- ConnectorRuntimes.ConnectorRuntime.RunConnector: the account row (reauthentication flag, next run time) is not modelled, so neither is a failure to write it.
- IngestionProviders.JiraIsHonestIff: issues in order of update, no two at the same instant, each with a key; the list does not change between two attempts. The page size shrunk by a record budget in `connectors/research/arxiv.py:134-136` is not modelled; `ResumingProvidersAreHonest` covers pages of any size.
- IngestionSafety.AtLeastOnceIffNotMarkedAhead: the seen-set's expiry is an arbitrary set of forgotten keys per page, and the marking-after-ack variant is not the source's.
- A message the broker stored but did not acknowledge is not on the modelled topic; only duplicates would be added by it.
- A node is a delta, a timeout or an exception; agents, prompts, tools, tracing and the token overdraft behind it are not modelled.
- GraphTermination.Termination: assumes of the nodes that only the Critic nodes write critiques, that the history mirrors them, that nobody but the graph writes `revision_count`, that nothing counted is negative and that the clock does not run backwards. Nodes may write any status, plan, report and error, and anybody may cancel at any moment.
- GraphClock.WallClockBound: assumes that nodes keep to their slices and that no time passes between nodes; it says nothing of a node that ignores cancellation.
- `dispatch_analysis` with branches, `unavailable_branches` and the join: the branch table is empty, so they never run.
- Confidence aggregation and recency (logarithms and exponents) and batch resolution of citations.
- QuoteNormalization.NormalizeWithOffsets: the Unicode tables are parameters; the only fact assumed is that the ASCII space is whitespace.
- CypherScanner.SplittingIsIdempotent: assumes that no quote, slash, star, backslash or semicolon counts as whitespace.
- VersionOrdinal.OrdinalOfPrinted: the interpreter's limit on the length of decimal strings is not modelled.
- ArtifactStores.ArtifactStore.Write: of the foreign keys only the actor's is modelled; a concurrent writer is not.
- Commits and CI runs of the artifact sync, whose passes have the shape of the pull-request pass over another list, and the loop over streams that stops on quota and authentication errors.
- ReviewCoverage.NothingBehindTheWatermarkIsUnread: reviews of a pull request change only together with its update time, the current second excepted; times are whole seconds, as GitHub serves them, and every listed pull request has an update time.
- SyncedRows.TablesAgreeIff: the payload behind an identity does not change meanwhile, and no write is refused: every actor arrives with its artifact.
- ReviewConvergence.RoomyStreamsFinish: over a list that stands still and uninterrupted passes; how many requests a pass may spend is not modelled.
- FeatureMatching.CleanTerms: stripping, case folding and splitting a name into words are functions given.
- GraphStatus.LegalFromQueuedIff: for nodes that write the statuses the shipped ones write, or none; a node that writes others is covered by `StatusAfter` alone.
- FeatureSorting.FeatureService.ScanProject: the queries of one pass are one snapshot, and features are not edited; a decision is one transaction.
- IngestionSafety.UnbrokenHistoriesKeepThePromise: the condition is enough, not necessary: an interrupted batch loses nothing if all of it had got through. `LostIffOrphaned` says exactly which records are lost.
- Hashes and derived identifiers: identities are compared, never computed.
- Model validators, registries, blocking rules, identity links, reading services, the command line, the API, migrations and the front end: single-branch or plain look-ups that would only add easy members.
