# A model of the run log, its projections and its transformations

The server keeps an append-only event log per run and derives almost everything else from it: summarised
trace sections, a trace graph, tool results that are guaranteed to arrive, a conversation with forks and a
running summary. This project models those protocols, and the self-contained transformations beside them,
in Dafny 4.11 and proves what they promise. `dafny verify dfyconfig.toml` checks all of it.

How the parts are laid out:

- **Trace sections** (`TraceSections`, `TraceSectionSafety`, `TraceSectionMeaning`, `TraceSectionDrain`,
  `TraceSectionCoordinator`). The asynchronous worker of one run as interleaved steps: an event arrives, a
  microtask starts, a summary (any summary) comes back, a range returns, a store call fails. The class executes
  the same steps on fields.
- **Session branching** (`SessionBranching`, `SessionLineage`, `SessionIsolation`, `SessionHistory`,
  `SessionListing`, `ConversationStore`). Copy-on-write conversations: lineage resolution on any branch table,
  and every interleaving of session creation, appends, run claims, checkpoints and forks.
- **Run events** (`RunEvents`, `RunEventContract`, `RunEventMeaning`, `RunEventPipeline`). The pipeline with its
  tool-result bridge and plan projector.
- **Trace graph** (`TraceDag`, `TraceDagForest`, `TraceDagRuns`, `TraceDagWhole`, `TraceDagCheckpoints`,
  `TraceDagBuilder`). The fold over messages, logs, artifacts and branches, and the builder class with its
  loops.
- **Tool loop** (`McpLoop`, `McpLoopRuns`, `McpLoopOutput`, `McpLoopMethods`). The bounded loop around an
  arbitrary inner agent.
- **Conversation memory** (`ConversationSummary`, `ConversationSummaryRuns`, `HistorySelection`,
  `HistoryPairs`). The summary watermark, the budgeted selection and the pairing of stored rows.
- **Model fallback** (`ModelFallback`, `ModelFallbackRuns`), **run claims** (`RunClaims`, `RunClaimsSafety`),
  **canonical JSON** (`CanonicalJson`, `CanonicalJsonLaws`, `CanonicalJsonTies`).
- **Text transformations**: CSV export and import (`Csv`, the quoting of section 2 of RFC 4180), the SQL comment
  stripper, statement scanner and normaliser (`SqlGuard`, `SqlNormalize`, `SqlLiterals`, `Whitespace`), and the
  terminal erase-sequence rewrite on a grid terminal with CUU, CUD, EL and CHA of ECMA-48 (`TerminalRedraw`,
  `TerminalScreen`, `TerminalRedrawMeaning`).

Code that changes state in place is a class or a loop here, and each such method is proved equal to a function
whose own properties are then proved; state machines are functions over lists of steps, so a statement "for all
`steps`" covers every interleaving. A step that is not possible when its turn comes is skipped, so no list of
steps is excluded.

Where something that the code or its comments suggest turned out false, the code is kept and the exact condition
is proved:

- The stored log of a run is the delivered log only if no protocol event is emitted that was stored or emitted
  before (`RunEventContract.StoredEqualsDeliveredIff`, `RunEventContract.RepeatedProtocolEventWitness`).
- A branch is a snapshot unless a checkpoint's own message position lies beyond the parent's last message
  (`SessionHistory.PlannedForkIsSnapshotIff`, `SessionHistory.LateCheckpointWitness`); the checkpoint projector
  never sets that position.
- Normalising SQL is not idempotent (`SqlNormalize.NormalizeTwiceIff`, `SqlNormalize.NormalizeTwiceWitness`), and
  it rewrites literals unless their blanks are single and, where something is cut off behind, their quotes are
  closed (`SqlLiterals.LiteralsSurviveIff`, `SqlNormalize.NormalizeChangesALiteral`,
  `SqlLiterals.UnclosedLiteralIsCut`).
- A save trims the name of a fallback profile before looking it up, a run does not, so a name saved with blanks
  around it passes validation and then is not found (`ModelFallbackRuns.ResolvesIffUnpadded`,
  `ModelFallbackRuns.PaddedFallbackIsLost`).
- The comment at `apps/api/src/conversation-memory.ts:622` promises strict alternation of user and assistant
  messages. A reasoning-only assistant row between two user rows breaks it, and so do two assistant rows in a
  row (`HistoryPairs.AlternatesIff`, `HistoryPairs.StrandedUserWitness`, `HistoryPairs.DoubledAssistantWitness`).
- A conversation summary continues where the last one ended only while the history window reaches back that
  far, and what it leaves out is never summarised (`ConversationSummaryRuns.FlushGoesOnIffLoaded`,
  `ConversationSummaryRuns.SkippedForGood`, `ConversationSummaryRuns.SkippingFlushWitness`).
- The start-up pass reclaims orphans among the newest 500 pending rows only (`RunClaimsSafety.PassCancelsIff`,
  `RunClaimsSafety.OldestOrphanWitness`).
- A session can have two active runs. No answer to a request causes it, but two other writers do. The status
  update is unconditional (packages/metadata/src/index.ts:1736), and a claimed run has no live handle until its
  assembly is done (apps/api/src/server.ts:591-818): a second request may take it for an orphan and claim the
  session, and the first run then suspends. And the record of an early failure (apps/api/src/server.ts:102-141)
  inserts a running row without looking for an active one and ends it in the next statement: if that statement
  fails the row stays, and if the run id is taken it ends the row of a run that may be live, which frees the
  session for another claim. Which writes do it is exact (`RunClaimsSafety.HistoryHasOneActiveIff`,
  `RunClaimsSafety.LateSuspendWitness`, `RunClaimsSafety.DuplicateRequestWitness`).
- The canonical form of a request depends on key order exactly when one of its objects has two different keys
  that compare as equal, which `localeCompare` allows (`CanonicalJsonTies.OneFormIffTieFree`,
  `CanonicalJsonTies.TieKeepsOrder`).
- One rewritten erase sequence near the top of the screen is harmless exactly when the extra rows are blank
  already (`TerminalRedrawMeaning.OneMatchIff`, `TerminalRedrawMeaning.NearTheTopWitness`).
- The tool loop may answer a call twice: when two open calls share an id, or when the inner agent reports a
  conversation without a tool message it was given (`McpLoopRuns.NoCallAnsweredTwiceIff`,
  `McpLoopRuns.DuplicateIdWitness`, `McpLoopRuns.ForgetfulAgentWitness`).

## Model

| member | source | states |
|---|---|---|
| `TraceSectionSafety.EveryRunIsSafe` | apps/api/src/trace-section-coordinator.ts:57-226 | in every run, with any summaries and with store calls of the worker failing at any point: sections tile 1..n without gap or overlap, all but the last are closed, each holds at most 16 context checkpoints, a queued range always has a worker or a wake-up behind it and at most one range is in flight |
| `TraceSectionSafety.StepSafe` | apps/api/src/trace-section-coordinator.ts:57-226 | each step keeps that invariant and adds at most one section at the end; of the earlier ones only the last may change, and it keeps its start and never shrinks |
| `TraceSectionSafety.TiledForwards` | apps/api/src/trace-section-coordinator.ts:127-128 | read by index: the first section starts at 1, each next right behind the previous end |
| `TraceSectionSafety.ExactlyOneSection` | apps/api/src/trace-section-coordinator.ts:122-226 | every covered event number lies in exactly one section |
| `TraceSectionDrain.EveryRunOwes` | apps/api/src/trace-section-coordinator.ts:77-120 | while no store call fails after it, the forced range up to the last terminal event is queued, in flight or covered at every step, whatever failed before: merging and requeueing lose neither the greatest end nor the force flag |
| `TraceSectionDrain.EveryRunIsBounded` | apps/api/src/trace-section-coordinator.ts:77-120 | whatever fails: no range queued or held ends behind the last scheduled event, one that ends at the last terminal event is forced, and sections that reach it are closed |
| `TraceSectionDrain.DrainedRunIsComplete` | apps/api/src/trace-section-coordinator.ts:91-120 | if no store call of the worker fails after the last terminal event: once the queue has drained, everything up to that event is covered; if nothing was scheduled after it, the sections cover exactly 1..T and all are completed |
| `TraceSectionDrain.EveryEventHasOneSection` | apps/api/src/trace-section-coordinator.ts:91-226 | under the same condition, after draining every event number up to the last terminal event belongs to exactly one section |
| `TraceSectionDrain.InternalStepDescends` | apps/api/src/trace-section-coordinator.ts:97-111 | without new events each step of the worker lowers a well-founded rank led by the uncovered distance, so requeueing cannot go on for ever |
| `TraceSectionDrain.NotDrainedMeansEnabled` | apps/api/src/trace-section-coordinator.ts:83-89 | no lost wake-up: while anything is queued or held the worker has a step to take |
| `TraceSectionMeaning.ObserveAsks` | apps/api/src/trace-section-coordinator.ts:57-89 | an event asks for a summary if and only if it ends the run, or compiles a context when the run has a positive multiple of three checkpoints; the request reaches up to the event, keeps the force flag and wakes a sleeping worker; nothing else changes |
| `TraceSectionMeaning.BeginCuts` | apps/api/src/trace-section-coordinator.ts:122-165 | a range returns at once exactly when it is covered, or not forced with at most three checkpoints; a forced one without a checkpoint lengthens and closes the last section; any other is cut at the farthest end with at most three checkpoints |
| `TraceSectionMeaning.SummaryPlaced` | apps/api/src/trace-section-coordinator.ts:184-225 | if the last section has the summary's phase and both together have at most 16 checkpoints, it grows and keeps start and id; otherwise it is closed and exactly one section is added behind it; either way the last row has the summary's words, ends with the range and is completed exactly when the range was forced and is used up |
| `TraceSectionMeaning.RequeuedAsks` | apps/api/src/trace-section-coordinator.ts:103-111 | what a range left over is queued again exactly when it was not consumed, up to the farther end and forced if either was |
| `TraceSectionMeaning.FailureLoses` | apps/api/src/trace-section-coordinator.ts:112-119 | a failing store call loses the range in hand and stops the worker; log, rows and what is queued stay, but that the last section may be closed, and if anything is queued the worker is woken exactly once |
| `TraceSectionMeaning.InsertKeepsOrder` | packages/metadata/src/index.ts:2722-2728 | a new row is listed by its start |
| `TraceSectionMeaning.ContextsAre` | apps/api/src/trace-section-coordinator.ts:130-139 | the checkpoints of a range are exactly the context events in it that left one, ascending |
| `TraceSectionCoordinator.Coordinator.Observe` | apps/api/src/trace-section-coordinator.ts:57-75 | the field updates of an observed event are the step of the state machine |
| `TraceSectionCoordinator.Coordinator.Schedule` | apps/api/src/trace-section-coordinator.ts:77-89 | merges into the queue slot and asks for a microtask unless one is processing |
| `TraceSectionCoordinator.Coordinator.SummarizeRange` | apps/api/src/trace-section-coordinator.ts:122-165 | the stretch before the model call, with all its early returns |
| `TraceSectionCoordinator.Coordinator.StoreSummary` | apps/api/src/trace-section-coordinator.ts:184-225 | the stretch after the model call: merge or close and append |
| `TraceSectionCoordinator.Coordinator.GoRound` | apps/api/src/trace-section-coordinator.ts:103-111 | what was not consumed is queued again, merged with what arrived meanwhile |
| `TraceSectionCoordinator.Coordinator.Drain` | apps/api/src/trace-section-coordinator.ts:91-120 | the worker's loop ends with an empty queue, safe sections and, if a terminal event asked last, closed sections up to it |
| `SessionLineage.ResolutionOutcome` | apps/api/src/session-branching.ts:297-328 | on any branch table resolution ends; it reports a cycle exactly when the parent chain revisits a session, and succeeds exactly when the chain neither revisits nor dangles |
| `SessionLineage.LineageIsPath` | apps/api/src/session-branching.ts:319-350 | a resolved lineage is the parent chain from the root down, with distinct sessions |
| `SessionIsolation.ReachableResolves` | apps/api/src/session-branching.ts:126-154 | in every reachable state resolution succeeds with the forest path, clamped at every fork, starting at the root the branch row names |
| `SessionIsolation.StepGood` | apps/api/src/session-branching.ts:83-156 | creation, appends, claims, checkpoints and forks keep the branch table a forest with forks inside their parents |
| `SessionIsolation.ForkPositionInParent` | apps/api/src/session-branching.ts:189-208 | a fork position never exceeds what the parent holds, unless the checkpoint names a later one |
| `SessionHistory.StepIsolates` | apps/api/src/session-branching.ts:50-66 | no step but an append to the session itself changes what it shows |
| `SessionHistory.RunsIsolate` | apps/api/src/session-branching.ts:50-156 | over any sequence of steps without such an append a session's history stays the same |
| `SessionHistory.AppendExtends` | apps/api/src/session-branching.ts:50-66 | an append adds exactly one message at the end of what its own session's lineage shows, whichever other run is left out |
| `SessionHistory.ForkShowsPrefix` | apps/api/src/session-branching.ts:123-156 | a branch taken from a run shows exactly the parent's history before that run's first message |
| `SessionHistory.SnapshotIffClampInPast` | apps/api/src/session-branching.ts:330-350 | an append to an ancestor stays invisible exactly when the clamp does not lie beyond what the ancestor held |
| `SessionHistory.PlannedForkIsSnapshotIff` | apps/api/src/session-branching.ts:194-208 | a planned fork lies within its parent exactly unless the checkpoint records a later message position |
| `SessionHistory.LateCheckpointWitness` | apps/api/src/session-branching.ts:194-208 | a checkpoint that records a later position: the fork is no snapshot, and the parent's next message appears in the child |
| `SessionListing.CollectLists` | apps/api/src/session-branching.ts:50-64 | along any lineage: exactly each segment's messages at or below its clamp and not of the excluded run, each once, in lineage order and then as stored |
| `SessionListing.ListingIsTail` | apps/api/src/session-branching.ts:65 | a listing is the last `limit` of these, place for place, or all of them |
| `SessionListing.AppendIsListedLast` | apps/api/src/session-branching.ts:50-66 | an appended message is the last of its session's listing; the others move up, and only the oldest leaves a full one |
| `SessionListing.ForkCutsAt` | apps/api/src/session-branching.ts:189-208 | a fork from a run keeps what precedes its first message; from a checkpoint what that names, or else everything up to the run's first user message, or else what precedes its first message |
| `SessionListing.ForkRefusedIff` | apps/api/src/session-branching.ts:83-187 | a fork is refused exactly for the first obstacle in the order of the checks; otherwise the branch row names the run's session, its root, the run, the checkpoint and the cut |
| `ConversationStore.Tables.Append` | packages/metadata/src/index.ts:1845-1889 | appends one row at the next position and keeps the forest |
| `ConversationStore.Tables.CreateSessionBranch` | apps/api/src/session-branching.ts:83-156 | refuses without writing, or writes one session and one branch row as planned, and keeps the forest |
| `RunEventContract.EveryRunKeepsContract` | apps/api/src/run-event-pipeline.ts:34-83 | for every sequence of events: no string id is answered twice, and before each delivered terminal event every call that ended is answered |
| `RunEventContract.AnsweredAtTerminal` | apps/api/src/run-event-pipeline.ts:38-41 | the exact number of results of an ended call before a terminal event, counting results under non-string ids on their own |
| `RunEventContract.ExactlyOneResult` | apps/api/src/tool-call-result-bridge.ts:20-60 | under string ids that number is one, with duplicate ends and results before ends included |
| `RunEventContract.AnsweredAtMostOnce` | apps/api/src/run-event-pipeline.ts:63-72 | over the whole log all results under one string id count once |
| `RunEventContract.StoredIsDelivered` | packages/metadata/src/index.ts:1761-1775 | the stored log is the delivered one behind what was stored before, repeats of a protocol event left out |
| `RunEventContract.StoredEqualsDeliveredIff` | packages/metadata/src/index.ts:1761-1775 | the two logs are equal exactly when no emitted protocol event's id was stored before the run's events or emitted earlier among them |
| `RunEventContract.RepeatedProtocolEventWitness` | packages/metadata/src/index.ts:1761-1775 | one protocol event emitted twice is delivered twice and stored once |
| `RunEventContract.EmittingSinkWitness` | apps/api/src/run-event-pipeline.ts:38-44 | a sink that emits the terminal event while a call's end is delivered to it: the bridge has not heard of the call yet, and the terminal event finds it unanswered |
| `RunEventContract.TerminalAdds` | apps/api/src/run-event-pipeline.ts:38-44 | a terminal event is delivered last, behind nothing but missing results of calls that ended |
| `RunEventContract.OrdinaryAdds` | apps/api/src/task-plan-projector.ts:20-66 | any other event adds itself, unless it repeats a result, and at most one plan snapshot behind it |
| `RunEventMeaning.PlanIffDue` | apps/api/src/task-plan-projector.ts:20-66 | over every run: an event that does not end it adds itself unless it repeats a result, and then a plan if and only if it is a result with string id and content, the last start of its call since that call's last such result named one of the four task tools, the content reads as tasks, and these differ from the last ones brought |
| `RunEventMeaning.LastPlanShowsLastTasks` | apps/api/src/task-plan-projector.ts:48-52 | when no plan is emitted from outside, those last tasks are the last plan of the delivered log |
| `RunEventMeaning.EndIsCompleted` | apps/api/src/tool-call-result-bridge.ts:23-59 | over every run: between the log and the event that ends it stands exactly one missing result for each call with an end that no result answered, with the name of the first such end and the marker content |
| `RunEventPipeline.EventPipeline.Emit` | apps/api/src/run-event-pipeline.ts:34-61 | the reentrant object computes the pipeline function and keeps its contract |
| `RunEventPipeline.EventPipeline.Deliver` | apps/api/src/run-event-pipeline.ts:63-83 | stores and sinks an event once |
| `RunEventPipeline.ToolCallResultBridge.FlushPendingResults` | apps/api/src/tool-call-result-bridge.ts:41-59 | marks every pending call in place and returns a marker result for each that had none |
| `RunEventPipeline.TaskPlanProjector.Observe` | apps/api/src/task-plan-projector.ts:20-66 | the name map and the last fingerprint after an event, and the snapshot it projects |
| `TraceDagWhole.TraceGraphIsForest` | apps/api/src/trace-dag.ts:140-252 | for every input: the order lists every node once, edges go from earlier to later nodes, no node has two incoming edges, the roots are exactly the user turns and the starts of runs without one, and a run's start leads to all its context, tool, terminal and artifact nodes |
| `TraceDagWhole.TraceGraphFollowsLog` | apps/api/src/trace-dag.ts:427-566 | a run's nodes are exactly those its log calls for, each with its event number (a tool's latest) and a context with the deltas logged while it was active |
| `TraceDagWhole.BuildShows` | apps/api/src/trace-dag.ts:183-236 | every visible run, artifact and branch row is in the graph below its proper node, and nothing else is |
| `TraceDagRuns.EventsKeep` | apps/api/src/trace-dag.ts:206-222 | folding one run's log keeps the forest, hangs each new node below the node of the event before, and touches no other run, however tool events interleave |
| `TraceDagRuns.StartRecords` | apps/api/src/trace-dag.ts:188-205 | a run's start node hangs below the first user message of the run, if there is one |
| `TraceDagCheckpoints.FirstUserIs` | apps/api/src/trace-dag.ts:184-205 | the turn that begins a run is the first user message of that run |
| `TraceDagCheckpoints.ResolvedIsOffered` | apps/api/src/trace-dag.ts:325-340 | the checkpoint of a node is the last row of its tool call, or else of its event the first row of the kind the node prefers, or else the first row of its event |
| `TraceDagCheckpoints.NodesOfferRows` | apps/api/src/trace-dag.ts:276-323 | in the finished graph every node of a run has exactly that checkpoint, a tool's node that of the latest event of its call that has one, however events and updates interleave |
| `TraceDagCheckpoints.BranchShownIff` | apps/api/src/trace-dag.ts:597-625 | a branch is shown exactly when it forked from a checkpoint found for a node of a visible run, and hangs below such a node |
| `TraceDagCheckpoints.TurnsShown` | apps/api/src/trace-dag.ts:184 | in the finished graph a user message's node names the run of its last row, and no event, call or checkpoint |
| `TraceDagForest.HangKeepsForest` | apps/api/src/trace-dag.ts:276-302 | a new node with an edge from an existing one keeps the graph a forest |
| `TraceDagForest.TouchKeepsForest` | apps/api/src/trace-dag.ts:276-285 | merging into an existing node does too |
| `TraceDagWhole.EveryNodeInOneSection` | apps/api/src/trace-dag.ts:656-692 | after a drained run in which no store call fails after the last terminal event, every node with an event number up to the terminal event is listed by exactly one section, once |
| `TraceDagBuilder.Builder.Add` | apps/api/src/trace-dag.ts:276-285 | the maps after adding a node, merged or new, with its checkpoint attached |
| `TraceDagBuilder.Builder.Resolve` | apps/api/src/trace-dag.ts:325-340 | the indexed lookup finds what the checkpoint list says |
| `TraceDagBuilder.Builder.AddEventNode` | apps/api/src/trace-dag.ts:427-566 | one event's effect on the graph and on the loop's variables |
| `TraceDagBuilder.BuildSessionTraceDag` | apps/api/src/trace-dag.ts:183-236 | the loops build the graph of the fold |
| `McpLoopRuns.LoopContract` | apps/api/src/policy-mcp-middleware.ts:80-233 | at most maxIterations + 1 inner runs; RUN_FINISHED at most once, last, and never with an error; one RUN_STARTED if the first inner run starts once |
| `McpLoopRuns.RunsAreBounded` | apps/api/src/policy-mcp-middleware.ts:177-203 | at most the remaining rounds plus one runs of the inner agent |
| `McpLoopRuns.ConversationGrows` | apps/api/src/policy-mcp-middleware.ts:211-232 | each further run is given what the last reported plus exactly the results just sent, with no call open |
| `McpLoopRuns.StartsOnce` | apps/api/src/policy-mcp-middleware.ts:93-116 | the output starts exactly as often as the first inner run |
| `McpLoopRuns.OutputGrammar` | apps/api/src/policy-mcp-middleware.ts:102-176 | the finish comes last or not at all, an ending that failed has none, an ending that did not fail has no error |
| `McpLoopRuns.NoCallAnsweredTwiceIff` | apps/api/src/policy-mcp-middleware.ts:169-233 | for every inner agent: the loop answers no call twice exactly when in every round it reaches the open ids differ from each other and from those answered before |
| `McpLoopRuns.NoCallAnsweredTwiceIfKept` | apps/api/src/policy-mcp-middleware.ts:169-233 | with an agent that keeps the tool messages it is given, exactly when no round it reaches finds two open calls with one id |
| `McpLoopRuns.DuplicateIdWitness` | apps/api/src/policy-mcp-middleware.ts:204-221 | an agent with two open calls of one id has it answered twice |
| `McpLoopRuns.ForgetfulAgentWitness` | apps/api/src/policy-mcp-middleware.ts:204-232 | an agent that drops the tool message has its call answered again |
| `McpLoopRuns.NothingLeftOpen` | apps/api/src/policy-mcp-middleware.ts:169-233 | on an ending without failure every MCP call has a tool message or a result of the loop, at the limit too |
| `McpLoopOutput.OutputListed` | apps/api/src/policy-mcp-middleware.ts:97-131 | for every inner agent: the subscriber gets every event of every run in order, less every finish and every start after the first run, behind each run's events the answers to it, and at the very end the last finish of the last run exactly when the loop ends well and that run has one; nothing is dropped, repeated or moved |
| `McpLoopOutput.LoopIsSo` | apps/api/src/policy-mcp-middleware.ts:89-233 | for every inner agent, round by round: what it was given and reported, which calls were answered with what, that it is run again exactly when nothing went wrong, a call was answered, the limit is not reached and no call is left, and how the loop ends |
| `McpLoopOutput.WaitingListed` | apps/api/src/policy-mcp-middleware.ts:169-170 | the calls answered after a run are exactly those without a tool message whose tool the loop has, each once, in the order of the conversation |
| `McpLoop.MaxIterations` | apps/api/src/policy-mcp-middleware.ts:71-78 | one for a number below one, the floor of any other; 32 when absent or not finite |
| `McpLoopMethods.PolicyMcpMiddleware.Continue` | apps/api/src/policy-mcp-middleware.ts:89-131 | what is sent, how it ends and which rounds it took, from any point of the loop |
| `McpLoopMethods.PolicyMcpMiddleware.HandleIterationComplete` | apps/api/src/policy-mcp-middleware.ts:150-233 | after an inner run: what is sent, and whether and with what the loop goes on |
| `McpLoopMethods.OpenToolCalls` | apps/api/src/policy-mcp-middleware.ts:348-360 | the calls without a tool message, in order |
| `Csv.RoundTrip` | apps/api/src/config-api.ts:3543-3544 | import of an export gives the rows back exactly when there is a row and none is empty, whatever the cells hold |
| `Csv.ReimportIsStable` | apps/api/src/config-api.ts:3603-3641 | exporting what was imported and importing it again changes nothing |
| `Csv.AnyLineEnd` | apps/api/src/config-api.ts:3603-3641 | rows written with any of the three line ends read the same |
| `Csv.LastLineEndOptionalIff` | apps/api/src/config-api.ts:3603-3641 | the last line end may be missing exactly when the last row is not a single empty cell, which is lost otherwise |
| `Csv.EmptyTextIsValue` | apps/api/src/config-api.ts:3603-3641 | an empty text reads as one cell with the word value |
| `Csv.CsvToRows` | apps/api/src/config-api.ts:3603-3641 | the index loop reads the raw rows of the scanner |
| `Csv.PreviewCsv` | apps/api/src/config-api.ts:3510-3531 | a preview is the export of its header and of its array and record rows |
| `SqlGuard.StripThenLex` | packages/data-gateway/src/readonly-guard.ts:38-111 | read back, stripped text has the original's tokens with each comment one blank: quoted regions verbatim, nothing new opens |
| `SqlGuard.StripTwice` | packages/data-gateway/src/readonly-guard.ts:38-111 | stripping is idempotent and leaves no comment opener outside quotes |
| `SqlGuard.CommentFreeIffKept` | packages/data-gateway/src/readonly-guard.ts:38-111 | a text is left unchanged exactly when it has no comment |
| `SqlGuard.LexIsLossless` | packages/data-gateway/src/readonly-guard.ts:38-111 | the tokens of a text spell it out again |
| `SqlGuard.LexReads` | packages/data-gateway/src/readonly-guard.ts:38-111 | character by character: outside quotes two hyphens begin a comment up to the line end and slash-star one up to the first star-slash or the end, marks open and close quotes with doubled marks staying inside, and everything else is plain |
| `SqlGuard.ScannersAgree` | packages/data-gateway/src/readonly-guard.ts:141-175 | on comment-free text the stripper and the statement scanner agree at every position on what is quoted |
| `SqlGuard.StripSqlComments` | packages/data-gateway/src/readonly-guard.ts:38-111 | the index loop computes the stripped text |
| `SqlGuard.HasMultipleStatements` | packages/data-gateway/src/readonly-guard.ts:141-175 | true exactly when some unquoted semicolon has something that is not blank behind it |
| `SqlNormalize.GuardReadonlySql` | packages/data-gateway/src/readonly-guard.ts:113-137 | the verdict is on text that has no comment and is stripped to itself; it is accepted exactly when it is not empty, the screen has no objection and no unquoted semicolon is followed by anything |
| `SqlNormalize.NormalizedIsCommentFree` | packages/data-gateway/src/readonly-guard.ts:113-114 | normalising stripped text brings no comment back |
| `Whitespace.SpacesAre` | packages/data-gateway/src/readonly-guard.ts:139 | what trimming and collapsing take for blank, code point by code point |
| `SqlNormalize.NormalizeTwiceIff` | packages/data-gateway/src/readonly-guard.ts:139 | normalising is idempotent exactly on texts with nothing blank before the dropped semicolons |
| `SqlNormalize.NormalizeTwiceWitness` | packages/data-gateway/src/readonly-guard.ts:139 | a concrete text that normalising changes twice |
| `SqlNormalize.NormalizeChangesALiteral` | packages/data-gateway/src/readonly-guard.ts:139 | a concrete literal that is changed: two blanks become one |
| `SqlLiterals.LiteralsSurviveIff` | packages/data-gateway/src/readonly-guard.ts:139 | for every text: the quoted characters survive normalising exactly when every quoted blank is a single space and either nothing is cut off behind or every quote is closed |
| `SqlLiterals.GuardKeepsLiteralsIff` | packages/data-gateway/src/readonly-guard.ts:113-114 | the guard hands on the quoted characters of the submitted text exactly when its stripped text meets that condition |
| `SqlLiterals.TidyMeans` | packages/data-gateway/src/readonly-guard.ts:139 | the condition on blanks spelled out at every position of the scanner |
| `SqlLiterals.UnclosedLiteralIsCut` | packages/data-gateway/src/readonly-guard.ts:139 | a concrete text whose unclosed quote loses its semicolon |
| `TerminalRedrawMeaning.OptimizePreservesMeaning` | apps/tui/src/terminal-redraw-optimizer.ts:31-51 | for any output and any terminal, if each match of n cursor-ups starts at row n or lower, or where the rows in question are blank, cells, cursor and parser end up the same |
| `TerminalRedrawMeaning.OneMatchIff` | apps/tui/src/terminal-redraw-optimizer.ts:31-51 | one match leaves the same screen exactly when it starts at row n or lower or the rows from the cursor to row n are blank |
| `TerminalRedrawMeaning.NearTheTopWitness` | apps/tui/src/terminal-redraw-optimizer.ts:56-58 | two units up from the first of three lines erase one line, the replacement all three |
| `TerminalRedrawMeaning.RunEraseUp` | apps/tui/src/terminal-redraw-optimizer.ts:7-12 | what the original sequence erases and where it leaves the cursor, at the top of the screen too |
| `TerminalRedrawMeaning.RunEraseDown` | apps/tui/src/terminal-redraw-optimizer.ts:40-50 | what the replacement erases and where it leaves the cursor |
| `TerminalRedraw.OptimizeMultilineEraseLines` | apps/tui/src/terminal-redraw-optimizer.ts:31-51 | every match, and nothing else, is replaced |
| `TerminalRedraw.OptimizeReplaces` | apps/tui/src/terminal-redraw-optimizer.ts:7-51 | a text that begins with an erase sequence of one unit or more has it replaced and goes on behind it |
| `TerminalRedraw.OptimizeKeeps` | apps/tui/src/terminal-redraw-optimizer.ts:31-51 | a text that begins with none keeps its first character |
| `TerminalRedraw.RewriteSequence` | apps/tui/src/terminal-redraw-optimizer.ts:32-50 | the callback builds the top-down sequence for two units or more |
| `TerminalRedraw.CountOccurrences` | apps/tui/src/terminal-redraw-optimizer.ts:18-28 | the number of occurrences that do not overlap, from left to right |
| `ConversationSummaryRuns.EveryRunIsConsistent` | apps/api/src/conversation-memory.ts:503-571 | over every interleaving of appends and flushes whose window reaches the watermark, the source ranges of the summaries tile a prefix and `from` stays at 1 |
| `ConversationSummaryRuns.LatestIs` | packages/metadata/src/index.ts:2117-2131 | the latest summary is the newest of those with the greatest end |
| `ConversationSummaryRuns.StoredUnlessKnown` | packages/metadata/src/index.ts:2060-2103 | a summary is stored exactly when none with its two ends is there |
| `ConversationSummaryRuns.RowsAreAppended` | apps/api/src/conversation-memory.ts:503-571 | whatever is flushed in between, the conversation holds exactly what was appended, in order |
| `ConversationSummaryRuns.FlightEnds` | apps/api/src/conversation-memory.ts:503-571 | one flush at a time; one that is on its way can always end, and given up it leaves the summaries as they were |
| `ConversationSummaryRuns.TiledMeans` | apps/api/src/conversation-memory.ts:544-559 | by index: no gap, no repeat, the ends strictly increase |
| `ConversationSummaryRuns.SummarisedOnce` | apps/api/src/conversation-memory.ts:544-559 | every position up to the watermark is the source of exactly one summary |
| `ConversationSummaryRuns.FlushGoesOnIffLoaded` | apps/api/src/conversation-memory.ts:519-559 | a flush continues at the watermark exactly when the window reaches back to it; otherwise it starts at the oldest message of the window |
| `ConversationSummaryRuns.SkippedForGood` | apps/api/src/conversation-memory.ts:519-559 | what a flush leaves out between the watermark and its first message is the source of no summary, whatever happens later |
| `ConversationSummaryRuns.SkippingFlushWitness` | apps/api/src/conversation-memory.ts:519-559 | three messages and a window of two: the first is skipped |
| `ConversationSummaryRuns.FlushDueIff` | apps/api/src/conversation-memory.ts:524-533 | a flush happens exactly when enough messages are unsummarised |
| `ConversationSummaryRuns.KeptAfterFlush` | apps/api/src/conversation-memory.ts:535-559 | after a flush exactly keepRecent messages remain, plus those that arrived while the text was written |
| `ConversationSummaryRuns.SummarisedOrReplayed` | apps/api/src/conversation-memory.ts:156-174 | no message is both summarised and replayed, and within the window every other run's message is one of the two |
| `ConversationSummary.Tables.CreateAutomaticConversationSummary` | apps/api/src/conversation-memory.ts:503-571 | the rows after one flush with messages arriving during it |
| `HistorySelection.SelectionIsExact` | apps/api/src/conversation-memory.ts:728-738 | an ordered subsequence of the window, totals equal to the sums, within both budgets exactly when what the selection starts from is |
| `HistorySelection.SelectionIsMaximal` | apps/api/src/conversation-memory.ts:728-738 | no dropped record of the window could be added without breaking a budget |
| `HistorySelection.NewerDecideFirst` | apps/api/src/conversation-memory.ts:728-738 | what is kept of newer records does not depend on older ones |
| `HistorySelection.WindowIsRecent` | apps/api/src/conversation-memory.ts:713 | the window is the last maxHistoryMessages records, or all of them |
| `HistorySelection.SelectBudgetedHistory` | apps/api/src/conversation-memory.ts:700-756 | the loop and its report: an ordered subsequence of the window, exact totals, kept plus dropped is available, and within both budgets exactly when the current input alone is; if it is not, nothing is added to it |
| `HistoryPairs.AlternatesIff` | apps/api/src/conversation-memory.ts:610-656 | users and assistants alternate strictly exactly when no user row is followed, across hidden rows, by another user row and no two visible assistant rows have only hidden rows between them |
| `HistoryPairs.MeetIff` | apps/api/src/conversation-memory.ts:628-656 | the same for each role on its own |
| `HistoryPairs.FirstShown` | apps/api/src/conversation-memory.ts:628-656 | the prompt begins with the role of the first visible row, and is empty exactly when no row is visible |
| `HistoryPairs.StrandedUserWitness` | apps/api/src/conversation-memory.ts:638-649 | three rows whose user messages meet |
| `HistoryPairs.DoubledAssistantWitness` | apps/api/src/conversation-memory.ts:638-649 | three rows whose assistant messages meet |
| `HistoryPairs.NormalizeHistoryMessagePairs` | apps/api/src/conversation-memory.ts:628-656 | the loop's messages, placeholders included |
| `ModelFallbackRuns.EveryTableIsAcyclic` | apps/api/src/config-api.ts:2014-2016 | after any sequence of saves and deletes no profile is its own fallback through others |
| `ModelFallbackRuns.RejectedIffCycle` | apps/api/src/config-api.ts:2048-2068 | a save is rejected as a cycle exactly when storing it would close one |
| `ModelFallbackRuns.ResolverNeverMeetsCycle` | apps/api/src/run-config-resolver.ts:253-284 | the resolver's cycle error is unreachable, provided profile ids are trimmed; they are, since only a POST creates one, with a trimmed or slugified id (apps/api/src/config-api.ts:1540), and a PATCH needs an existing one |
| `ModelFallbackRuns.ResolvesIffUnpadded` | apps/api/src/run-config-resolver.ts:708-711 | a chain the validator accepts is resolved exactly when no fallback on it has blanks around its name |
| `ModelFallbackRuns.PaddedFallbackIsLost` | apps/api/src/config-api.ts:2054 | a concrete save that is accepted and then not found |
| `ModelFallbackRuns.StaleWriteClosesCycle` | apps/api/src/config-api.ts:4558-4609 | writing an old payload back, as a connectivity test may, can close a cycle |
| `ModelFallback.ValidateModelFallback` | apps/api/src/config-api.ts:2048-2068 | the validator's loop ends on any table with the verdict of the walk |
| `ModelFallback.ResolveRunModelProvider` | apps/api/src/run-config-resolver.ts:255-284 | the resolver's loop ends on any table with the chain, or the first missing, repeated or unusable profile |
| `ModelFallback.ResolveProfileRevisions` | apps/api/src/run-config-resolver.ts:222-236 | the revision walk ends on any table and records exactly the profiles a run resolves |
| `RunClaimsSafety.ActiveIsOnly` | apps/api/src/run-identity-orchestrator.ts:38-149 | a run answered as active has a row, it is running, and it is the only queued, running or suspended row of its session |
| `RunClaimsSafety.ResumedIff` | apps/api/src/run-identity-orchestrator.ts:74-114 | a run is resumed if and only if its row is suspended in the request's session, nothing blocks, and the interaction answered is known, pending and of this session and tool; the datasource is the stored one if there is one |
| `RunClaimsSafety.ClaimedIff` | apps/api/src/run-identity-orchestrator.ts:74-149 | a run is claimed if and only if its id is new, nothing blocks, its parent is in order and a selected datasource is known; the row added is running under the request's fingerprint and datasource |
| `RunClaimsSafety.ReplayedIff` | apps/api/src/run-identity-orchestrator.ts:47-72 | a run is replayed if and only if its row is of this session, has a fingerprint, is neither queued nor running and left events, and the request has that fingerprint or repeats the answer that resolved the interaction; nothing is written |
| `RunClaimsSafety.HistoryHasOneActiveIff` | apps/api/src/run-identity-orchestrator.ts:38-149 | over every history of requests, start-up passes, arbitrary status changes and records of early failures: each session has at most one such row between the steps exactly when every status change writes an inactive status, or writes to an active row, or to a session with no other active row, and every record that could not be ended finds its key taken or its session idle |
| `RunClaimsSafety.RecordKeepsOneActiveIff` | apps/api/src/server.ts:102-133 | the same for one record of an early failure: it never breaks the invariant when its second statement succeeds, and otherwise exactly when it adds its row to a session that has an active one |
| `RunClaimsSafety.DuplicateRequestWitness` | apps/api/src/server.ts:1094-1106 | the other failing history: a duplicate request on a live run is rejected and its record ends the live run's row, the session is claimed again, and the first run suspends |
| `RunClaimsSafety.UpdateKeepsOneActiveIff` | packages/metadata/src/index.ts:1736-1754 | the same for one status change, which the repository makes unconditionally |
| `RunClaimsSafety.AnswerKeepsOneActive` | apps/api/src/run-identity-orchestrator.ts:38-149 | no request, however it is answered, gives a session a second active row |
| `RunClaimsSafety.LateSuspendWitness` | apps/api/src/run-finalizer.ts:38-46 | the failing history: a run is claimed, taken for an orphan by the next claim, and then suspends |
| `RunClaimsSafety.BlockedIff` | apps/api/src/stale-active-runs.ts:12-47 | a claim is blocked exactly when a row of the session is suspended or alive; otherwise none is active afterwards |
| `RunClaimsSafety.ReclaimCancelsOrphansOnly` | apps/api/src/stale-active-runs.ts:19-47 | only queued or running rows without a live handle are canceled, and only in the session |
| `RunClaimsSafety.PassCancelsIff` | apps/api/src/stale-active-runs.ts:50-71 | the start-up pass cancels a row exactly when it is an orphan among the newest 500 pending ones |
| `RunClaimsSafety.PassCountsChanged` | apps/api/src/stale-active-runs.ts:50-71 | the count the start-up pass reports is the number of rows it changes |
| `RunClaimsSafety.OldestOrphanWitness` | packages/metadata/src/index.ts:1704-1724 | of 501 orphans the oldest is left running |
| `RunClaimsSafety.OthersUntouched` | apps/api/src/run-identity-orchestrator.ts:74-146 | rows outside the session keep their status |
| `RunClaims.RunTable.ResolveRunIdentity` | apps/api/src/run-identity-orchestrator.ts:38-149 | exact in the request and the rows: refused for the first obstacle in the order of the checks, else replayed, resumed or claimed, with the rows and the datasource each leaves; the claim never conflicts |
| `RunClaims.RunTable.ResolveLiveSessionActiveRun` | apps/api/src/stale-active-runs.ts:12-47 | the loop ends, with the blocking row or with every orphan of the session canceled |
| `RunClaims.RunTable.ReclaimOrphanedQueuedAndRunningRuns` | apps/api/src/stale-active-runs.ts:50-71 | the rows and the count after the start-up pass |
| `CanonicalJsonLaws.CanonicalizeTwice` | apps/api/src/run-identity.ts:108-122 | canonicalising is idempotent |
| `CanonicalJsonLaws.SameFormIff` | apps/api/src/run-identity.ts:86-122 | under any collation: a value none of whose objects has two keys that compare as equal has the form of another exactly when the two are equal up to key order and undefined members at every depth |
| `CanonicalJsonTies.OneFormIffTieFree` | apps/api/src/run-identity.ts:116-120 | the form of one value is independent of key order exactly when none of its objects, at any depth, has two defined keys that compare as equal |
| `CanonicalJsonTies.OrderIndependentIff` | apps/api/src/run-identity.ts:116-120 | over all values it is independent of key order exactly when the collation never ties |
| `CanonicalJsonTies.TieKeepsOrder` | apps/api/src/run-identity.ts:118 | two members whose keys tie, in both orders: equal values with two forms |

## Left out

- `TraceSectionSafety.EveryRunIsSafe`: one coordinator per run is assumed; a resumed run builds a second one (apps/api/src/server.ts:673), and two workers on one run are not modelled.
- `TraceSectionDrain.DrainedRunIsComplete`: runs in which a store call of the worker fails after the last terminal event are excluded, since the range it held is lost until the next event asks for it. A replayed protocol event that reuses an old event number is not modelled.
- `RunEventContract.EveryRunKeepsContract`: the sink does not emit from inside a delivery; one that does can break the contract (`RunEventContract.EmittingSinkWitness`). A store call that throws is not modelled.
- `McpLoopMethods.PolicyMcpMiddleware.Continue`: unsubscribing in mid-run, and the caller's message array growing in place with each round's tool messages, are not modelled; tool listing and execution are arbitrary functions.
- `TraceDagWhole.TraceGraphIsForest`: relies on the tables' keys (event numbers rise within a run, an artifact belongs to one run, branch rows are distinct); node ids are constructors, so two joined strings that happen to coincide are not modelled.
- `TraceDagWhole.TraceGraphFollowsLog`: labels, summaries, tool arguments and results, statuses and the other details of a node are left out; reasoning and assistant output are one text.
- `ConversationSummaryRuns.EveryRunIsConsistent`: one flush at a time, and each finds at most historyLoadLimit unsummarised messages; what happens otherwise is FlushGoesOnIffLoaded.
- `HistorySelection.SelectBudgetedHistory`: the lengths and token counts of bounded texts are given numbers; a message limit of 0 keeps the whole history, as the code does.
- `ModelFallbackRuns.ResolverNeverMeetsCycle`: the built-in server profile that is resolved from the environment, secrets and provider construction are a yes-or-no answer per profile.
- `RunClaimsSafety.HistoryHasOneActiveIff`: the two statements that record an early failure count as one step, so the running row between them is not seen by others; session creation, parent and datasource lookups are answers the request brings with it; two rows with one start time are ordered as listed; which runs have a live handle is arbitrary at each step.
- `SqlNormalize.GuardReadonlySql`: the keyword tests on text with emptied literals are an arbitrary screen, since they are regular expressions of the host language.
- `Csv.CsvToRows`: the typed values that a spreadsheet reader infers from the raw cells are left out; so is XLSX.
- `CanonicalJsonLaws.SameFormIff`: the hash over the canonical form, the printing of undefined array items as null, and objects that are not plain records are left out; the order of keys, array-index keys included, is one collation.
- `TerminalRedrawMeaning.OptimizePreservesMeaning`: scroll margins, a pending wrap at the right edge, coloured erasing and string sequences such as OSC are left out; every other character and control sequence is an arbitrary function on the screen.
- The visibility test of a fork looks at sessions only, not at positions (apps/api/src/session-branching.ts:294), and no more is claimed.
- Listing branch options, deleting sessions and the duplicate check of conversation appends are not modelled.
- Prompts, summary texts, phase keys, retries, timers, clocks and random ids are arbitrary values or fresh names.
- HTTP routing, uploads, authentication, file handling, the graph database services and the terminal's rendering are plumbing around other libraries.
