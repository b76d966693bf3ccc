# Verified model of the SAS assessment engine and its log pipeline

This project models the deterministic core of the assessment tool and proves
properties of it, in Dafny 4.11. `dafny verify dfyconfig.toml` checks everything.

**Graph engine.** The assessment graph has conditional, prioritised, possibly cyclic
edges. `GraphEngine` picks a READY node whose prerequisites hold, runs its handler,
records the end and activates successors. The stored state is one value (`State`: node
rows, executions, human requests, phase, facts). `EngineState` and `EngineSpec` say what
each write, one execution, routing, the run loop, recovery and the operator commands do
to it; the classes in `Engine` do the same step by step on a repository and are proved
equal to it. A handler is an oracle that sees the whole state, so it may answer
differently on every call; it can open requests and change facts, never a node status.
It may succeed, fail, wait, skip, raise, hit a quota or die with the process. Histories
(`Event`) interleave run iterations, direct node runs, restarts, answers, unblocks and
outside changes of facts.

**Legacy log pipeline.** `Recognisers` and `Assembler` group physical lines into records,
`FieldSplit` cuts TB_LOG fields outside quotes, `Lifecycle` matches INI and FIN events
with one stack per correlation key, `LogEngine` runs the stages in order.

**Algorithms.** `GraphModel` has the reachability worklist and graph validation,
`BraceBlock` the extraction of the longest brace-balanced block from agent output.

| file | content |
|---|---|
| `Prelude`, `Text` | optional values, string order, Python string operations |
| `GraphModel` | graphs, outgoing edges, reachability, validation |
| `EngineState`, `EngineSpec`, `Selection`, `ExecutionLaws`, `Engine` | state, transitions, selection, single executions, the classes |
| `Ledger`, `Safety`, `Termination`, `Resume`, `Exhaustion`, `Reruns`, `Confluence`, `CompletionLaws` | whole-run properties |
| `Differences` | reachable states that contradict the documentation |
| `Recognisers`, `LinePatterns`, `Assembler`, `AssemblerLaws`, `Provenance`, `FieldSplit`, `RoundTrip`, `MixedLog` | log lines, records, fields |
| `Lifecycle`, `LifecycleLaws`, `Correlation`, `PairingOrder`, `LogEngine` | INI/FIN matching, its order and counts |
| `BraceBlock`, `PrintedObjects` | envelope extraction |

## Where code and documentation differ

The model follows the code. For each difference there is a reachable state or a concrete
log in which the documented statement fails, and the exact condition under which it holds.

- `docs/legacy-log-parser.md:41` says nested events pair first-in first-out. The code
  pops a stack. Fails: `PairingOrder.LastOpenedIsClosed`. Holds exactly when no FIN comes
  while two stages of its key are open, which the counts of INI and FIN events decide:
  `PairingOrder.FifoExactly` against a matcher with a queue, `PairingOrder.InOrderExactly`
  on the order of the built stages.
- `src/sassessment/graph/engine.py:51` says a node never runs before its requirements
  have SUCCEEDED. Fails in four ways: `Differences.StartsOnSkipped`,
  `Differences.StartsOnAny`, `Differences.StartsEntry`, `Differences.StartsDirectly`.
  Holds at a start exactly when none of the first three exemptions applies:
  `Safety.StartedOnSucceeded`; later, `Safety.RanOnSucceeded`; and at every start by the
  run loop, whatever operators do, on every graph that offers no exemption:
  `Safety.NeverBeforeSucceeded`.
- `src/sassessment/graph/engine.py:511-513` says recovery gives the attempt back and
  cancels the interrupted execution. The RUNNING write clears the recorded execution id,
  so in every reachable state recovery cancels nothing and the attempt stays consumed:
  `Differences.CrashedAndRecovered`, `Ledger.CrashConsumesAttempt`,
  `Ledger.AttemptLedger`. An execution is cancelled exactly when a RUNNING row records
  it: `Engine.GraphEngine.RecoverStaleRunning`.
- `docs/graph-model.md:98` says an answered request leaves its node SUCCEEDED. Fails when
  the node is its own resume node, the default: `Differences.AnsweredButNotSucceeded`.
  Exactly then: `Safety.AnswerEffect`.
- `docs/graph-model.md:166` says RUNNING is reported whenever something runs or could
  run. Fails: `Differences.RunnableButNotReported`. Exact condition:
  `CompletionLaws.RunningReported`.
- `docs/graph-model.md:84-85` says a node without attempts left stays FAILED. It stays so
  exactly until a predecessor's success, an answer or an unblock makes it READY:
  `Exhaustion.FailedStays`, and over whole histories `Exhaustion.FailedForGood`. Then it
  can be the first pick, and every run raises at once while other nodes are runnable:
  `Differences.UnblockedAndStuck`, `Exhaustion.StuckUntilOperator`.
- `docs/graph-model.md:102` and `docs/operator-guide.md:68` and `:176` say SUCCEEDED nodes
  are never re-run. Fails for a direct run and for an answer that resumes at one:
  `Differences.RunAgainDirectly`, `Differences.RunAgainAfterAnswer`. Nothing else
  touches such a node: `Reruns.SucceededLeftAlone`; without the two, one success is the
  only one: `Reruns.SucceedsOnce`.

## Model

| member | source | states |
|---|---|---|
| GraphModel.SortIsStable | src/sassessment/graph/model.py:78-80 | outgoing edges are the declared ones, ordered by priority, ties in declaration order |
| GraphModel.OutgoingInOrder | src/sassessment/graph/model.py:78-80 | as many edges as the node has, each at the position given by counting the edges of lower priority and the earlier ones of its own priority |
| GraphModel.ReachableNodes | src/sassessment/graph/model.py:114-125 | the worklist ends on every graph and yields, sorted, exactly the nodes a path from the entry leads to |
| GraphModel.Validate | src/sassessment/graph/model.py:82-112 | a problem is reported if and only if the graph has it, for each kind of problem |
| GraphModel.ValidGraph | src/sassessment/graph/model.py:82-112 | there is no problem if and only if the entry exists, every node has an id, a known type and the handler it needs, every edge joins two different known nodes, and the nodes are exactly those the entry reaches |
| Selection.PickFindsRunnable | src/sassessment/graph/engine.py:107-127 | selection finds a node if and only if one is runnable |
| Selection.PickMayStart | src/sassessment/graph/engine.py:91-127 | selection finds a node exactly when some node may start: the entry of an empty assessment, or a READY node whose requirements are SUCCEEDED or SKIPPED, all of them or for `any` one |
| Selection.PickUnique | src/sassessment/graph/engine.py:126-127 | the runnable node before all others in (phase rank, id) is the pick, whatever the map order |
| Selection.PickIsFirst | src/sassessment/graph/engine.py:122-127 | no runnable node has a lower phase digit than the pick, phases outside phase0 to phase8 come last, and within a phase the id is alphabetically first by code point |
| Engine.GraphEngine.CheckPrerequisites | src/sassessment/graph/engine.py:93-105 | met exactly when all, or for `any` at least one, of the prerequisites are SUCCEEDED or SKIPPED; the missing list is exact |
| Engine.GraphEngine.NextRunnable | src/sassessment/graph/engine.py:107-127 | returns the unique minimal runnable node, which may start, or none when nothing may; the order is that of Selection.PickIsFirst |
| Engine.GraphEngine.RouteFrom | src/sassessment/graph/engine.py:466-496 | walking the edges one by one has the effect of activating all eligible targets of firing edges at once, with every condition read in one snapshot |
| Engine.GraphEngine.RunOneNode | src/sassessment/graph/engine.py:258-374 | state and outcome of one node run are those of the transition function; a refusal changes nothing; the node ends SUCCEEDED exactly on an accepted success; every other end: ExecutionLaws.EndsByReply |
| Engine.GraphEngine.Run | src/sassessment/graph/engine.py:227-249 | the loop is the iterated transition function; a run that raises nothing else raises the transition limit exactly when its count has reached max_cycles times the number of nodes |
| Engine.GraphEngine.RecoverStaleRunning | src/sassessment/graph/engine.py:508-535 | row-by-row recovery equals one simultaneous recovery, cancels exactly the RUNNING executions that RUNNING rows record, and reports exactly the RUNNING nodes |
| Engine.GraphEngine.DecideCompletion | src/sassessment/graph/engine.py:546-569 | deciding over the collected node lists, and asking selection last, gives the classification of the stored state |
| Engine.GraphEngine.AssessmentCompletion | src/sassessment/graph/engine.py:537-590 | besides the status: the open requests in order, how many block, and sorted lists of exactly the waiting, the failed, and the mandatory nodes never activated |
| Engine.Repository.UpsertNodeState | src/sassessment/state/repository.py:110-132 | an omitted attempt count is kept, an omitted execution id is cleared, no other row changes |
| Engine.Repository.CreateRequest | src/sassessment/state/repository.py:241-263 | refused exactly when the same information is already open for the node |
| Engine.Repository.ResolveRequest | src/sassessment/state/repository.py:275-283 | succeeds exactly on an existing open request |
| Engine.NodeContext.RequestHumanInput | src/sassessment/nodes/base.py:144-192 | always yields the id of an open request of this node for this information; the error branch is never reached |
| Engine.ApplicationContext.OpenEngine | src/sassessment/cli/main.py:98-109 | bootstraps a missing entry, then recovers; the new engine starts with no transitions |
| Engine.ApplicationContext.AnswerRequest | src/sassessment/cli/main.py:276-316 | succeeds exactly on an open request with material, and then has the effect of `Answer` |
| Engine.ApplicationContext.UnblockNode | src/sassessment/cli/main.py:319-336 | succeeds exactly on held, failed, running or ready nodes, keeping their attempts |
| ExecutionLaws.UnblockExactly | src/sassessment/cli/main.py:319-330 | rows WAITING_FOR_APPROVAL, FAILED, RUNNING and READY become READY with their attempts; any other row, and everything else stored, stays |
| ExecutionLaws.QuotaHoldReleased | src/sassessment/cli/main.py:319-330 | a quota hold and its unblock leave the node READY with the attempts it had before the run |
| ExecutionLaws.AnswerExactly | src/sassessment/cli/main.py:276-302 | an answer needs an OPEN request and material; then it resolves this request alone and stores the new facts, and otherwise changes nothing |
| EngineSpec.RunIsHistory | src/sassessment/graph/engine.py:227-249 | every run leaves the state of a history of single iterations, so history properties hold for runs |
| Ledger.ExecutedRows | src/sassessment/graph/engine.py:278-374 | an execution writes one node row and one execution row, with a quota hold giving the attempt back |
| ExecutionLaws.RefusedExactly | src/sassessment/graph/engine.py:258-276 | the exact condition of each refusal, in the order of the checks; a refusal changes nothing |
| ExecutionLaws.EndsByReply | src/sassessment/graph/engine.py:278-367 | which handler ends leave SUCCEEDED, FAILED, WAITING_FOR_INPUT, WAITING_FOR_APPROVAL, SKIPPED and RUNNING, which record an error, and what the attempt count and the execution row become |
| ExecutionLaws.OnlySuccessRoutes | src/sassessment/graph/engine.py:292-375 | anything but an accepted success leaves every other row as it was |
| ExecutionLaws.RoutesExactly | src/sassessment/graph/engine.py:466-481 | after an accepted success exactly those targets of firing edges are READY that are not SUCCEEDED, waiting, cancelled or skipped; the conditions read the state in which the node has succeeded, with the facts of the reply |
| ExecutionLaws.OutcomeReports | src/sassessment/graph/engine.py:338-374 | the outcome names node, execution, status and, by priority, exactly the firing edges |
| ExecutionLaws.FactsAndPhase | src/sassessment/graph/engine.py:494-506 | the reply's facts are stored; an accepted success of a gate node of phase 0 to 7 sets the phase with the next digit, and nothing else changes the phase |
| ExecutionLaws.RequestsMade | src/sassessment/nodes/base.py:144-192 | every request of the reply is open afterwards, every new row is one of them, and without a resume node it resumes at the node itself |
| Ledger.RunNodeFrame | src/sassessment/graph/engine.py:258-374 | a non-success changes no other node; a success changes only itself and eligible direct successors, which keep their attempts |
| Ledger.RouteIgnoresOrder | src/sassessment/graph/engine.py:466-481 | routing has the same effect for every order and priority of the same edges |
| Ledger.AttemptLedger | src/sassessment/graph/engine.py:261-302 | in every history attempts plus quota holds equal executions, attempts stay within max(0, both caps), recovery changes no execution |
| Ledger.CrashConsumesAttempt | src/sassessment/graph/engine.py:278-285 | after a process death and a restart the node is READY, one attempt is gone, the execution still reads RUNNING |
| Ledger.RequestProtocol | src/sassessment/state/repository.py:241-283 | in every history at most one open request per node and information; rows are only added or go from OPEN to RESOLVED |
| Ledger.ResolvedOnce | src/sassessment/cli/main.py:276-302 | an answered request stays RESOLVED in every later history and can never be answered again |
| Safety.StartedWithJoinMet | src/sassessment/graph/engine.py:107-127 | whatever operators did, a node executed by the run loop has its join satisfied, or is the entry of an empty assessment |
| Safety.StartedOnSucceeded | src/sassessment/graph/engine.py:91-127 | a node the loop may start has only SUCCEEDED prerequisites exactly when it is no exempt entry, none was skipped, and an `any` join leaves none over |
| Safety.RanOnSucceeded | src/sassessment/graph/engine.py:91-127 | in such histories, the same condition at any moment after a non-entry node ran |
| Safety.NeverBeforeSucceeded | src/sassessment/graph/engine.py:51 | with joins of `all`, an entry without prerequisites and handlers that never skip, the loop starts nodes on SUCCEEDED prerequisites only, in every history of runs, direct runs, answers, unblocks, crashes and restarts |
| Safety.PrerequisiteSafety | src/sassessment/graph/engine.py:91-127 | every non-entry node that ever ran has its join satisfied in all later states, in every history in which no answer resumes a satisfied node and no direct run re-runs one or starts a node early |
| Safety.RequirementCyclesNeverRun | src/sassessment/graph/engine.py:93-127 | nodes that can only wait for each other (join-all with a requirement in the group, join-any with none outside it) never execute in any history of runs, direct runs of other nodes, answers, unblocks, crashes and restarts |
| Safety.AnyOfNothingNeverRuns | src/sassessment/graph/engine.py:103-104 | a non-entry node that joins `any` of no requirements never executes unless it is run directly |
| Safety.JustifiedActivation | src/sassessment/graph/engine.py:466-481 | a node with a row ends a path of succeeded nodes from the entry, hence is reachable, in every history in which no answer or direct run takes a success back and no answer activates a node without a row |
| Safety.AnswerEffect | src/sassessment/cli/main.py:303-310 | exactly when the answered node ends SUCCEEDED; the resume node ends READY; no other row and no attempt count changes |
| Termination.ExecutionSpends | src/sassessment/graph/engine.py:258-374 | every execution of a runnable node lowers #READY plus #(edges whose source has not succeeded), for all outcomes and cyclic graphs |
| Termination.RunIsPaidFor | src/sassessment/graph/engine.py:227-249 | from any state: executions are at most the potential, the bound is only hit within it, a drained run leaves nothing runnable |
| Termination.BoundStopsRun | src/sassessment/graph/engine.py:230-248 | when each way of ending a run comes, with the transition bound written out, and that no node runs behind the transition that reaches it |
| Termination.OutcomesAreExecutions | src/sassessment/graph/engine.py:239-240 | a run reports one outcome for each of its executions, in order, with node, id and status |
| Termination.FreshRunTerminates | src/sassessment/graph/engine.py:227-249 | a run on a new assessment executes at most 1 + #edges nodes and hits the transition bound only if that bound is at most 1 + #edges |
| Resume.ResumeEquivalence | src/sassessment/graph/engine.py:227-249 | run(a), a new engine, run(b) give the outcomes and the state of run(a + b), unless the bound is hit or the process dies in the first part |
| Exhaustion.FailedStays | src/sassessment/graph/engine.py:477-481 | one event leaves a FAILED node without attempts left FAILED unless it is a predecessor's success that routes to it, its unblock, or an answer of or for it |
| Exhaustion.FailedForGood | src/sassessment/graph/engine.py:261-276 | after any history such a node is FAILED if and only if none of these events occurred |
| Exhaustion.StuckUntilOperator | src/sassessment/graph/engine.py:227-276 | once the pick has used up its attempts, runs, restarts and outside changes leave rows and executions as they are, and every run raises at once with no outcome |
| Reruns.SucceededLeftAlone | src/sassessment/graph/engine.py:107-127 | an event leaves a SUCCEEDED node SUCCEEDED and unexecuted if and only if it is no direct run of it and no answer that resumes at it |
| Reruns.SucceedsOnce | src/sassessment/graph/engine.py:477-478 | in every history without such events a node has at most one SUCCEEDED execution, and from then on its row is SUCCEEDED |
| Differences.StartsOnSkipped | src/sassessment/graph/engine.py:91-105 | a history in which a node runs on a skipped prerequisite |
| Differences.StartsOnAny | src/sassessment/graph/engine.py:103-104 | a history in which a join of `any` runs while another prerequisite waits |
| Differences.StartsEntry | src/sassessment/graph/engine.py:115-117 | the entry of an empty assessment runs whatever it requires |
| Differences.StartsDirectly | src/sassessment/graph/engine.py:258-276 | a history in which a direct run starts a node whose prerequisite never ran |
| Differences.RunnableButNotReported | src/sassessment/graph/engine.py:554-560 | a history after which a node is runnable and the report is WAITING |
| Differences.AnsweredButNotSucceeded | src/sassessment/cli/main.py:303-310 | a history in which an answered node ends READY |
| Differences.CrashedAndRecovered | src/sassessment/graph/engine.py:508-535 | a history in which recovery keeps the attempt and leaves the execution RUNNING |
| Differences.UnblockedAndStuck | src/sassessment/cli/main.py:319-330 | a history in which an unblocked node starves a runnable one |
| Differences.RunAgainDirectly | src/sassessment/graph/engine.py:258-276 | a history in which a direct run executes a SUCCEEDED node a second time |
| Differences.RunAgainAfterAnswer | src/sassessment/cli/main.py:308-310 | a history in which an answer that resumes at a SUCCEEDED node makes the loop execute it a second time |
| Confluence.AnyOrderReachesFixpoint | src/sassessment/graph/engine.py:93-127 | any exhausted order of picks executes exactly the least fixpoint of activation and prerequisites, which determines every status |
| Confluence.Confluent | src/sassessment/graph/engine.py:107-127 | two exhausted orders end with the same status for every node |
| Confluence.RunReachesLeastFixpoint | src/sassessment/graph/engine.py:227-249 | with caps of at least 1 and max_cycles of at least 2, enough steps drain the run, each node of the least fixpoint executed once |
| CompletionLaws.CompletionAfterFullRun | src/sassessment/graph/engine.py:537-569 | after a full run the report is never RUNNING and is COMPLETED exactly when nothing blocks and every mandatory node is satisfied in the fixpoint |
| CompletionLaws.RunningReported | src/sassessment/graph/engine.py:554-569 | RUNNING is reported if and only if something runs or could run, exactly when something runs, nothing could run, or nothing blocks, waits or failed and a mandatory node is not done |
| CompletionLaws.ReportMeans | src/sassessment/graph/engine.py:554-569 | the exact condition of each of the five reports |
| Assembler.LogAssembler.ConsumeTextLine | src/sassessment/legacy_logs/assembler.py:122-175 | the branches on the open record's kind act as one rule: join, or close and open |
| Assembler.LogAssembler.ConsumeLine | src/sassessment/legacy_logs/assembler.py:92-175 | one physical line has the effect of `Consume`, and a pending page date keeps meaning a header on top and nothing open |
| Assembler.AssembleRecords | src/sassessment/legacy_logs/assembler.py:180-190 | the numbering and offset loop yields the records of the whole stream |
| AssemblerLaws.OneLineOneStep | src/sassessment/legacy_logs/assembler.py:92-175 | every line leaves the records alone, extends the last one, or adds one behind it; with the exact condition of each |
| AssemblerLaws.StreamLaws | src/sassessment/legacy_logs/assembler.py:85-190 | the records' non-blank lines are the input's, in order; ranges increase without overlap; a TB_LOG record not last and not before a page header has even quotes and no trailing dash |
| Provenance.RecordsHoldTheirRanges | src/sassessment/legacy_logs/assembler.py:180-190 | each record holds exactly the non-blank lines of its own line range and spans exactly their offsets, and only blank lines lie outside all ranges |
| AssemblerLaws.StreamSound | src/sassessment/legacy_logs/assembler.py:92-175 | at every point of every stream a pending date means a header on top and no open record, and only four kinds are ever open |
| AssemblerLaws.StreamingBranchUnreachable | src/sassessment/legacy_logs/assembler.py:145-151 | at no point of any stream is a status, checkpoint, sleep or call record open, so their continuation branch is unreachable |
| LinePatterns.HeadSeen | src/sassessment/legacy_logs/assembler.py:10-52 | the first lines of TB_LOG, message, auto variable, source, checkpoint, sleep, call and status records, given by their characters, are recognised as such |
| LinePatterns.DateMatches | src/sassessment/legacy_logs/assembler.py:15-16 | every printed date line is recognised as a page date |
| MixedLog.TbLogJoinsExactly | src/sassessment/legacy_logs/assembler.py:55-66 | a text line joins an open TB_LOG record exactly when a quote is open, the record ends in a dash, or the line starts with a quote or a dash |
| MixedLog.MixedRoundTrip | src/sassessment/legacy_logs/assembler.py:92-190 | a log written block by block, of TB_LOG records, messages, auto variables, sources, status lines, loose text and pages with or without date, in any order, assembles to exactly one record per block, with its kind and its lines |
| Recognisers.PageHeaderHasNoDash | src/sassessment/legacy_logs/assembler.py:14 | no line with a dash is a page header |
| FieldSplit.SplitDelimitedFields | src/sassessment/legacy_logs/parsers.py:22-43 | the index loop yields the trimmed segments |
| FieldSplit.SegmentsAreTheInverse | src/sassessment/legacy_logs/parsers.py:22-43 | the segments are the only texts that rejoin with "- " to the input, with every cut outside quotes and no unquoted "- " left |
| FieldSplit.SplitInvertsJoin | src/sassessment/legacy_logs/parsers.py:22-43 | splitting undoes joining with " - " if and only if the list is non-empty, trimmed and split-safe |
| FieldSplit.PlainFieldsExactly | src/sassessment/legacy_logs/parsers.py:22-43 | trimmed fields without quotes come back exactly when none holds a dash before a space and none but the last ends in a dash |
| FieldSplit.QuotedFieldsSurvive | src/sassessment/legacy_logs/parsers.py:29-33 | fields in quotes come back whatever dashes and spaces they hold |
| RoundTrip.ReadPrinted | src/sassessment/legacy_logs/parsers.py:132-136 | the text of a record wrapped at any of its delimiters joins and splits back to its fields |
| RoundTrip.ReadPrintedExactly | src/sassessment/legacy_logs/parsers.py:132-136 | fields that are not empty come back from a record wrapped in any way exactly when they are trimmed and split-safe |
| RoundTrip.LogRoundTrip | src/sassessment/legacy_logs/assembler.py:92-130 | any printed and wrapped log assembles to one TB_LOG record per entry and parses to the same fields exactly when no entry puts a last field that reads as a page header on a line of its own |
| RoundTrip.OpenEndSwallowsNext | src/sassessment/legacy_logs/assembler.py:62-63 | a record whose text ends in a dash swallows the next TB_LOG line, so the last field must not be empty |
| Lifecycle.BuildLifecycle | src/sassessment/legacy_logs/lifecycle.py:32-79 | the loop over stacks of stages yields the stages of the matching on record positions; which records these are: Correlation.FinClosesLatest and Correlation.OrphansExactly |
| Lifecycle.KeyUsesContext | src/sassessment/legacy_logs/lifecycle.py:8-17 | the iteration of a correlation key is the one announced last, in the record or before it, and absent when none was |
| Correlation.KeysExactly | src/sassessment/legacy_logs/lifecycle.py:8-17 | two events have the same key exactly when their records agree on the component but for case, the job id, the entity and the iteration announced last |
| Correlation.StagesShowTheirRecords | src/sassessment/legacy_logs/lifecycle.py:59-73 | a stage shows component, job id, entity and iteration of the record that opened it, an INI, or a FIN for an orphan |
| Correlation.StagesCorrelate | src/sassessment/legacy_logs/lifecycle.py:74-78 | a complete stage runs from an INI to a later FIN whose records agree on all four |
| Correlation.FinClosesLatest | src/sassessment/legacy_logs/lifecycle.py:74-78 | a FIN closes a stage exactly when it is the latest of the open stages whose records agree with it on all four |
| Correlation.OrphansExactly | src/sassessment/legacy_logs/lifecycle.py:62-73 | a FIN is recorded as an orphan exactly when no open stage agrees with it on all four |
| LifecycleLaws.MatchingProjects | src/sassessment/legacy_logs/lifecycle.py:48-79 | for any interleaving, a key's stages and open stack are those of a single-stack matcher on that key's events |
| LifecycleLaws.StagesAreBalanced | src/sassessment/legacy_logs/lifecycle.py:48-79 | one stage per INI, closed by the FIN at which its key's balance first returns to zero and by no other; one orphan per FIN that closes nothing |
| LifecycleLaws.IntervalsNest | src/sassessment/legacy_logs/lifecycle.py:75-78 | matched intervals of one key are nested or disjoint |
| PairingOrder.QueueAgreesExactly | src/sassessment/legacy_logs/lifecycle.py:75 | on the events of one key, a stack and a queue give the same stages exactly when no FIN meets two open ones |
| PairingOrder.FifoExactly | src/sassessment/legacy_logs/lifecycle.py:48-79 | in any log, a key's stages are those of the documented queue exactly when before each of its FINs at most one stage is open by count |
| PairingOrder.InOrderExactly | src/sassessment/legacy_logs/lifecycle.py:48-79 | the built stages of every key end in the order they start exactly under the same condition |
| PairingOrder.LastOpenedIsClosed | src/sassessment/legacy_logs/lifecycle.py:75 | of two records that open and one that closes, the second stage is complete and the first is not |
| LifecycleLaws.OrphanArithmetic | src/sassessment/legacy_logs/lifecycle.py:48-79 | per key, orphans are the largest prefix excess of FINs, and stages left open are #INI - #FIN plus orphans |
| LifecycleLaws.LifecycleMetrics | src/sassessment/legacy_logs/engine.py:56-73 | the two lifecycle metrics as sums over the keys |
| LogEngine.ParseStream | src/sassessment/legacy_logs/engine.py:28-38 | one parsed record per draft, in order, and the stages of exactly these records |
| LogEngine.LifecycleCounts | src/sassessment/legacy_logs/engine.py:56-73 | counting orphan and incomplete stages gives the sums over the keys |
| BraceBlock.BlockEnd | src/sassessment/opencode_adapter/envelope.py:94-118 | finds the one end at which the depth first returns to zero, or shows there is none |
| BraceBlock.LargestBraceBlock | src/sassessment/opencode_adapter/envelope.py:90-119 | the longest balanced block with "status", the earliest on ties, or none if there is none; what is balanced: PrintedObjects.PrintedIsBalanced |
| BraceBlock.LargestIsUnique | src/sassessment/opencode_adapter/envelope.py:113-119 | length, earliest start and "status" leave exactly one possible result for every text |
| BraceBlock.ExtractsExactly | src/sassessment/opencode_adapter/envelope.py:90-119 | a balanced block with "status", no '{' before and no '}' behind it, is extracted exactly |
| PrintedObjects.PrintedIsBalanced | src/sassessment/opencode_adapter/envelope.py:97-118 | every printed object is a balanced block, whatever braces, quotes and backslashes its keys and strings hold |
| PrintedObjects.PrintedIsExtracted | src/sassessment/opencode_adapter/envelope.py:90-119 | a printed object with a "status" key is extracted exactly, from inside any text without an opening brace before and a closing one behind |

## Left out

- Engine.GraphEngine.RunOneNode: handler statuses outside the five legal ones, the cycles and last_error columns, timestamps and durations are not modelled, because nothing selected or routed depends on them.
- Engine.GraphEngine.RouteFrom: decision rows and audit events are not modelled, because they are written and never read by the engine; a raising predicate is not modelled, conditions are total.
- Engine.GraphEngine.Run: dry run and the `extras` argument are not modelled, because they only plan or override the snapshot.
- Engine.NodeContext.RequestHumanInput: request documents and destination directories are files; ids are positions in the table, so freshness of random ids is taken as given.
- Engine.ApplicationContext.AnswerRequest: the presence of material files and the facts registered with them are parameters.
- Engine.GraphEngine.AssessmentCompletion: the limitation messages are not modelled, because they only word the returned lists.
- Safety.NeverBeforeSucceeded: sufficient and not necessary, because a graph with an exemption may still never use it; the exact condition of each start is Safety.StartedOnSucceeded.
- Engine.Repository.CreateRequest: one assessment is modelled, so the assessment column is not.
- Confluence.RunReachesLeastFixpoint: edge conditions are assumed independent of the state and outcomes fixed and non-failing, because with failures or state-dependent conditions the order may matter.
- Recognisers.PageHeaderHasNoDash: digits and letters are the ASCII ones and case is folded for ASCII only, in all line patterns.
- RoundTrip.LogRoundTrip: the user, severity, event and context values taken out of the fields are not modelled, because they are cut out of fields already parsed.
- MixedLog.MixedRoundTrip: loose text is indented and stands where no open record takes it up, because there it is part of that record; a line that reads like a date does not follow a bare page header.
- Lifecycle.BuildLifecycle: stages are values addressed by position instead of shared objects, timestamps are not modelled, and marker, component and iteration are given fields of a record.
- LogEngine.ParseStream: the per-anchor parsers are a function parameter.
- GraphModel.Validate: reading the graph JSON is not modelled, because it is I/O; nodes are keyed by their own id.
- SQLite, transactions, JSONL, checkpoints, intake, spreadsheets, the subprocess adapter, prompts and configuration are I/O or external calls.
- `blocked_summary`, `is_final`, `iterate_loop_runs` and the message keyword cascade are display or easy.
