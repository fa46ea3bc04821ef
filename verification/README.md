# A verified model of the deterministic engines

This Dafny project models the engines of a coding-agent steward that decide
without a human in the loop, and proves what they promise. `dafny verify
dfyconfig.toml` checks all of it.

Code that works by changing things is modelled by methods and classes over the
same variables and loops; each is proved equal to a function on values, and the
theorems are about those functions. The environment - the model provider, the
authorizer, the executor, the reservation store, the scheduler of tasks - is
arbitrary: it is a script of answers the theorems quantify over. A process may die
between any two statements that touch the journal or the executor; running out of
script is one way of dying.

| part | modules |
|---|---|
| shared vocabulary | `Wrappers`, `Transcript`, `StringOrder` |
| the agent loop, its journal and its resumption | `ToolCalls`, `ToolJournal`, `StreamCollector`, `AgentLoop`, `LoopAccounting`, `CallAnswers`, `RunEndings`, `ResumeSafety`, `ResumeGate`, `DurableJournal` |
| the wire conversation of the loop's transcript | `AnthropicAdapter`, `WireFilters`, `WireConversation`, `WireTexts`, `WireReplay`, `StreamedCalls`, `StreamedThinking`, `LoopOnTheWire`, `Conversation` |
| budget reservations around an execution | `ReservationGuard` |
| the backlog graph and the scheduler | `BacklogGraph`, `BacklogScheduler`, `BacklogDrain` |
| the run-length codec | `RunLengthCodec` |
| the context budgeter | `ContextBudget`, `BudgetOptimality` |
| the reconciler's debounce protocol | `ReconcilerDebounce` |
| targeted edits and unified diffs | `TargetedEdit`, `UnifiedDiff`, `DiffReading` |
| money as decimal text | `Rounding`, `DecimalMoney` |
| the bootstrap manifest and its canonical bytes | `CanonicalManifest`, `BootstrapManifest` |

## Where the code and its comments disagree

The model follows the code.

- `docs/contracts/agent-loop.md` lines 138-142 require a resuming host to consult
  `resume_readiness`. No host here does: the function has no caller outside tests. On the
  reference journal, `InMemoryToolJournal`, which takes every intent it is given, that
  would matter: `UngatedSecondLifeRepeats`, `UngatedBreaksExactly`, `GateIsExact` and
  `GateIsExactOnHistories` are about that journal alone. `RawAgent::execute` runs on the
  SQLite one, whose table of intents is unique in the call id (`055_agent_runtime.sql`
  line 37), and the loop panics when an intent is refused (`raw_runtime.rs` lines
  1161-1163). There no life, gated or not, executes a call id twice
  (`EveryCallRunsAtMostOnce`), and the second life of the witness ends at its second
  intent (`SecondLifeEndsAtItsIntent`).
- Lines 134-135 there let a read-only or idempotent call with an intent and no result
  run again. On the SQLite journal none ever does: a call id can be executed exactly
  while it was never announced (`RunsExactlyWhenUnannounced`), an announced call without
  a result never gets one (`AnnouncedIsFinal`), and requesting it ends the run
  (`TurnEndsExactly`), whatever its class.
- `backlog_reconciler.rs` lines 32-35 promise that at most one reconciliation runs.
  A task clears `running` before it loops, so an event in that window spawns a second
  task: `TwoReconcileAtOnce`. `OneReconciliationExactly` says when the promise holds:
  when no task begins while one is running, which `fire` does not ask. Keeping events out
  of the window is enough (`SingleFlightExactly`, `SingleFlightNeverOverlaps`) but not
  needed (`LateEventNeedNotOverlap`). No event is lost either way.
- `token_discipline.rs` lines 10-13 promise that a replayed edit reaches the identical
  file. A block that leaves its anchor in place is written again: `ReplayCanApplyTwice`.
  Being recognised as already applied is exact for every list of blocks
  (`ReplayIsRecognisedExactlyWhenLanded`). Leaving the content unchanged is exact for
  blocks that point the same way, and so for every single block (`ReplayKeepsExactlyWhen`);
  for blocks against each other it goes one way (`QuietBlocksKeep`), and
  `OpposedBlocksCanCancel` shows that the other way fails.
- `token_discipline.rs` lines 239-246 cut a long anchor at byte eighty for a message,
  which panics inside a character: `QuotingCanPanic`. The model has an outcome for it. A
  call panics exactly over its first refused block, if that anchor has no character
  boundary at byte eighty (`PanicsExactly`); a call without such anchors never does
  (`QuotableNeverPanics`), and every such anchor does on some content
  (`AnchorCanPanicExactly`).
- `claude_code.rs` line 333 calls the rounding half-up; it is half to even, as line 338
  says. `DiffersFromHalfUpExactly` says for which amounts that shows, at any scale, and
  `HalfAMicroIsNothing` names one at the scale costs are read at.
- `raw_agent.rs` lines 88-94 say no reservation outlives its execution. One does when
  the rollback release fails, and when the guard's release fails while the budget is
  still held - also when only the hardware release failed, because the budget is then
  not tried: `BudgetCanOutliveItsExecution`. `EveryReservationIsResolvedOnce` gives the
  exact condition.
- `raw_agent.rs` lines 410-413 say worker identity keeps the attempt rows of one
  execution apart. One worker selected for implementation and for remediation gets a
  host for each (`run.rs` lines 1144-1145, and line 604 excludes nobody). The store takes
  both reservations, as their owners name different stages, and both hosts mint
  `execution:worker:1:1`: `TwoHostsMintTheSameId`. `HostsCollideExactly` says when two
  hosts on one store collide: when the stages differ and scope and counter agree. Two
  hosts of one stage, as `run.rs` builds them when review is disabled, do not: the
  second owner is refused.
- `anthropic.rs` lines 339-351 give an empty object as input to a tool_use whose call was
  malformed and so "never registered". In a run every call is registered, because the
  loop records it and the next request seeds the registry from the record; a malformed
  one is recorded with the arguments `null` and goes out with the input null.
  `EveryRequestOfARunIsFaithful` says when a request has such an input.
- `anthropic.rs` lines 303-305 say thinking is replayed ahead of everything else in the
  turn. It is, within its message (`ThinkingLeadsItsCalls`). But the loop records a turn's
  text before its calls, so the text goes out as a message of its own ahead of it:
  `ThinkingLeadsTheTurnExactly` says for which turns the comment holds.
- `anthropic.rs` lines 60-62 call the thinking remembered with a call that which streamed
  immediately before it. When the call before it had arguments that do not parse, its
  thinking is included (`UnparsedCallKeepsThinking`, and `StreamIsRecalled` exactly).
- `resume_readiness` blocks on any destructive intent without a result, so an execution
  that died after the intent and before the executor was called is blocked as well
  (`DeathBlocksExactlyWhenInDoubt`). The journal cannot tell the two apart, which is why
  `GateIsExact` holds.

## Model

| member | source | states |
|---|---|---|
| `ResumeSafety.EveryHistoryIsSafe` | crates/familiar-ai-agent/src/raw_runtime.rs:853-1206 | Over any sequence of lives on one reference journal, each dying anywhere and each begun only when the journal is ready: every execution directly follows its recorded intent, no call with a recorded result is executed again, no call id is executed again once a destructive call of that id was, and the journal is exactly what the trace recorded |
| `ResumeSafety.LivesAreSafe` | crates/familiar-ai-daemon/src/agent_runtime.rs:1195-1220 | The same from any safe world, so safety is kept by every further life |
| `ResumeSafety.ServingIsSafe` | crates/familiar-ai-agent/src/raw_runtime.rs:1089-1206 | One call served, with a death allowed between any two of its steps, keeps the world safe, and leaves the journal settled unless the process died |
| `ResumeSafety.InvokingIsSafe` | crates/familiar-ai-agent/src/raw_runtime.rs:1154-1172 | Invoking the executor breaks none of the promises when its intent was just recorded, it has no result, and nothing destructive was in doubt |
| `ResumeSafety.DeathBlocksExactlyWhenInDoubt` | crates/familiar-ai-daemon/src/agent_runtime.rs:1195-1220 | After a call is served, resumption is blocked exactly when a destructive call was left between its intent and its result |
| `ResumeSafety.DoubtIsFinal` | crates/familiar-ai-daemon/src/agent_runtime.rs:1195-1220 | While a destructive call is in doubt no later life changes anything |
| `ResumeSafety.RunStaysInAuthority` | crates/familiar-ai-agent/src/raw_runtime.rs:292-322 | No run executes a capability it was not configured to offer |
| `ResumeSafety.EveryExecutionIsLicensed` | crates/familiar-ai-agent/src/raw_runtime.rs:1007-1172 | Every execution of every run stems from a call streamed in that run, which was validated against the offered capabilities and authorized |
| `ResumeSafety.OnlyAuthorizedCallsRun` | crates/familiar-ai-agent/src/raw_runtime.rs:1099-1172 | A call reaches the executor only if it is well formed, offered, within its payload limit, fits its schema, is authorized and has no recorded result; what is executed is that call |
| `ResumeSafety.ResumeAndRun` | docs/contracts/agent-loop.md:138-142 | The readiness gate followed by the loop, as the contract asks of a host that resumes, is one life of the history |
| `ResumeGate.UngatedSecondLifeRepeats` | crates/familiar-ai-agent/src/raw_runtime.rs:520-540 | On the in-memory reference journal, for any parser and text that reads as the arguments of a command: without the gate a second life repeats the destructive call the first one died in |
| `ResumeGate.UngatedBreaksExactly` | crates/familiar-ai-agent/src/raw_runtime.rs:520-540 | On the reference journal, from a safe world some ungated life with a given parser breaks the promises exactly when a destructive call was executed there and has no result |
| `ResumeGate.GateIsExact` | crates/familiar-ai-agent/src/raw_runtime.rs:495-540 | On a ready reference journal every life is safe whatever its past; on any other some safe past and some life break the promises: the gate blocks exactly where it must |
| `ResumeGate.GateIsExactOnHistories` | crates/familiar-ai-agent/src/raw_runtime.rs:495-540 | The same among pasts that gated lives really leave: of the reference journals reached, exactly the ones that are not ready also come from a history after which some further life breaks the promises |
| `DurableJournal.EveryCallRunsAtMostOnce` | crates/familiar-ai-storage/migrations/055_agent_runtime.sql:24-63 | On the journal whose call ids are unique, over any lives, gated or not, dying anywhere and with storage failing anywhere: every call id is executed at most once, right after its intent, never after its result, and the journal is what the trace recorded |
| `DurableJournal.RunsExactlyWhenUnannounced` | crates/familiar-ai-storage/migrations/055_agent_runtime.sql:24-37 | After any lives, a further life can execute a call id exactly when no intent for it was ever recorded |
| `DurableJournal.AnnouncedIsFinal` | crates/familiar-ai-agent/src/raw_runtime.rs:1136-1163 | Once an intent is recorded, no later life executes that call id, and if it has no result it never gets one |
| `DurableJournal.TurnEndsExactly` | crates/familiar-ai-agent/src/raw_runtime.rs:1161-1163 | With every call authorized and storage working, a turn ends the process exactly when one of its valid calls was announced and left without a result, whatever its class |
| `DurableJournal.SecondLifeEndsAtItsIntent` | crates/familiar-ai-agent/src/raw_runtime.rs:1161-1163 | The two lives that repeat a destructive call on the reference journal do not here: the second ends at its second intent and changes nothing |
| `ResumeSafety.NothingOpenIsSafe` | crates/familiar-ai-agent/src/raw_runtime.rs:853-1206 | A life from a safe world with no executed destructive call left open is safe, gate or no gate |
| `ResumeSafety.LifeKeeps` | crates/familiar-ai-agent/src/raw_runtime.rs:853-1043 | Whatever serving one call keeps, wherever the process dies, a whole life keeps: the rule by which every journal promise here is proved |
| `ToolJournal.JournalStore.ResumeReadiness` | crates/familiar-ai-daemon/src/agent_runtime.rs:1195-1220 | Ready exactly when no destructive intent lacks a result; a block names the oldest that does |
| `ToolJournal.JournalStore.PendingIntents` | crates/familiar-ai-daemon/src/agent_runtime.rs:1206-1206 | The intents without a recorded result, all of them and no others, oldest first |
| `ToolJournal.JournalStore.RecordIntent` | crates/familiar-ai-storage/migrations/055_agent_runtime.sql:24-37 | Appends the intent and changes nothing else; the durable journal refuses one whose call id it has, or that storage does not take, and is then unchanged |
| `ToolJournal.JournalStore.RecordResult` | crates/familiar-ai-agent/src/raw_runtime.rs:531-534 | Sets the result of that call and changes nothing else; the durable journal drops one that storage does not take or that would be a second |
| `ToolJournal.JournalStore.ResultFor` | crates/familiar-ai-daemon/src/agent_runtime.rs:1263-1283 | The recorded result of a call, if there is one; a durable journal that could not be opened answers every call with a failure |
| `ToolCalls.NamesParseBack` | crates/familiar-ai-agent/src/raw_runtime.rs:62-78 | Capability names parse back to the capability and to nothing else |
| `ToolCalls.ValidatesExactly` | crates/familiar-ai-agent/src/raw_runtime.rs:289-325 | For a call that names an offered capability: accepted exactly when it is well-formed JSON, within the limit and an object with every required key and none outside the declared ones; otherwise refused as malformed, oversized with both sizes, or malformed, in that order |
| `ToolCalls.RefusesUnknown` | crates/familiar-ai-agent/src/raw_runtime.rs:289-325 | A call that names no offered capability is refused as unknown, or as malformed when its JSON is |
| `ToolCalls.EffectsOfCapabilities` | docs/contracts/agent-loop.md:83-91 | Running a command is the one destructive capability, reading and searching the only read-only ones |
| `ToolCalls.BytesAreCounted` | crates/familiar-ai-agent/src/raw_runtime.rs:308-318 | The payload length counts one byte a character and one more from each of the bounds 0x80, 0x800 and 0x10000 on |
| `AgentLoop.ProcessToolCall` | crates/familiar-ai-agent/src/raw_runtime.rs:1089-1206 | The journal, the executor trace, the tool message and the disposition after each statement the process may die at |
| `AgentLoop.ProcessCalls` | crates/familiar-ai-agent/src/raw_runtime.rs:1007-1043 | All calls of a turn are served in order, also those after a refusal that stops the run closed |
| `AgentLoop.RunTurn` | crates/familiar-ai-agent/src/raw_runtime.rs:877-1043 | One pass of the loop: cancellation, ceilings, submission, the answer or failure, and the calls |
| `AgentLoop.ServeTurn` | crates/familiar-ai-agent/src/raw_runtime.rs:1007-1043 | The calls message, then one result message per call, then the ending they cause |
| `AgentLoop.RunLoop` | crates/familiar-ai-agent/src/raw_runtime.rs:853-1062 | A whole run over the loop variables and the journal object equals the run the theorems speak of |
| `LoopAccounting.EveryRunAccounts` | crates/familiar-ai-agent/src/raw_runtime.rs:877-1062 | For every run: attempts at most iterations at most the ceiling, with a gap of at most one; an ambiguous attempt exists exactly on timeout or ambiguous failure and is the last; known output tokens were below the ceiling before every submission; each request is a prefix of the next and an answered transcript; call records and tool messages name the same calls; journal growth equals executed plus failed calls; and a run that does not die ends in a transcript of answered turns |
| `LoopAccounting.IterateAccounts` | crates/familiar-ai-agent/src/raw_runtime.rs:877-1043 | One pass keeps the loop invariant or ends in a state that accounts for everything |
| `LoopAccounting.EveryCallIsAnswered` | crates/familiar-ai-agent/src/raw_runtime.rs:1017-1040 | Unless the process dies, each call of a turn gets exactly one result, in order, with its id |
| `LoopAccounting.BatchAccounting` | crates/familiar-ai-agent/src/raw_runtime.rs:1017-1040 | Serving a turn keeps results and records paired, grows the journal by the calls that ran, and is fatal exactly when some record stopped closed |
| `LoopAccounting.RefusalStopsTheRunExactly` | crates/familiar-ai-agent/src/raw_runtime.rs:1024-1043 | A run that stops reports a fatal refusal exactly when one of its calls was refused so as to stop closed |
| `LoopAccounting.TurnExtendsTranscript` | crates/familiar-ai-agent/src/raw_runtime.rs:1007-1043 | An answered turn added to a well-formed transcript leaves it well formed |
| `CallAnswers.EveryRunAnswers` | crates/familiar-ai-agent/src/raw_runtime.rs:1017-1206 | In every run, wherever it ends, the k-th tool result and the k-th record answer the k-th call streamed: an error exactly unless the call was executed or resumed as succeeded; refused exactly when invalid or not authorized, as recorded; the text is what the executor returned, or its failure, or the earlier result; and the journal holds to the end what the record says, unless it did not take the result |
| `CallAnswers.ServedCallsAreAnswered` | crates/familiar-ai-agent/src/raw_runtime.rs:1017-1206 | The same for the calls of one turn, which never replace a result the journal holds |
| `RunEndings.EveryRunEndsAsDue` | crates/familiar-ai-agent/src/raw_runtime.rs:889-1043 | Each stop reason is reported exactly under its condition on the turns: the last submission, its stop, the text received, the known tokens, the pass count, a cancellation, a call that closed the run; the run goes on after a pause and after other calls; and the last text, the tokens and each answered submission's usage and request id are reported |
| `StreamCollector.TurnCollector.OnEvent` | crates/familiar-ai-agent/src/raw_runtime.rs:794-831 | The buffers and completed calls after one streamed event |
| `StreamCollector.StreamDemultiplexes` | crates/familiar-ai-agent/src/raw_runtime.rs:786-831 | However calls interleave, what is completed and held open for one id is a function of that id's own events |
| `StreamCollector.ArgumentsAreJoinedFragments` | crates/familiar-ai-agent/src/raw_runtime.rs:800-829 | From one completion to the next, a call's arguments are the fragments in between, joined in order |
| `StreamCollector.TextIsJoinedDeltas` | crates/familiar-ai-agent/src/raw_runtime.rs:795-799 | The text of a turn is its text deltas joined in order, whatever lies between them, and absent without any |
| `StreamCollector.OneCallAppend` | crates/familiar-ai-agent/src/raw_runtime.rs:800-829 | What one id's events amount to can be computed piece by piece |
| `AnthropicAdapter.Adapter.CollectToolResults` | crates/familiar-ai-agent/src/anthropic.rs:271-293 | The contiguous run of tool results from an index, and where it ends |
| `AnthropicAdapter.Adapter.PushAssistantAndToolTurn` | crates/familiar-ai-agent/src/anthropic.rs:295-349 | Replayed thinking, text and tool_use blocks in one assistant message, then all results in one user message |
| `AnthropicAdapter.Adapter.SeedRegistry` | crates/familiar-ai-agent/src/anthropic.rs:235-254 | A recorded assistant turn adds its calls to the registry and overwrites none it knows |
| `AnthropicAdapter.Adapter.ConvertMessages` | crates/familiar-ai-agent/src/anthropic.rs:177-269 | The index-driven conversion yields the wire conversation and registry the theorems speak of |
| `WireConversation.ConversionPairsEveryResult` | crates/familiar-ai-agent/src/anthropic.rs:177-374 | For any message list and any registry: every tool result is on the wire exactly once and in order, with its id, its content and its error flag, each directly after an assistant message holding its tool_use, and every tool_use is answered directly |
| `WireTexts.ConversionKeepsEveryText` | crates/familiar-ai-agent/src/anthropic.rs:177-349 | For any message list and any registry: each user and assistant text is on the wire once, under its role and in order, and the system texts become the system blocks |
| `WireReplay.EveryResultFollowsItsCall` | crates/familiar-ai-agent/src/anthropic.rs:177-356 | For any message list and any registry: the grouped conversion emits the tool_use blocks due message by message - the call remembered under the result's id, else the first one recorded under it before the result, else one made up from the result with an empty object |
| `WireReplay.ThinkingLeadsItsCalls` | crates/familiar-ai-agent/src/anthropic.rs:298-356 | For any message list and any registry: every message replays the thinking remembered with its calls, in order, thinking and signature each in place, ahead of its text and its calls |
| `WireReplay.ThinkingLeadsTheTurnExactly` | crates/familiar-ai-agent/src/anthropic.rs:303-305 | Over both messages of a turn the loop recorded with calls, the replayed thinking stands first exactly when the turn has no text or nothing was remembered |
| `WireReplay.OnlyTheLastIsCached` | crates/familiar-ai-agent/src/anthropic.rs:261-265 | The system texts are kept in order, and only the last is marked, exactly when caching was asked for |
| `WireConversation.LoopTranscriptReplaysCalls` | crates/familiar-ai-agent/src/anthropic.rs:177-349 | For a transcript of answered turns with distinct calls, every call goes out once, in order, under the name and arguments it was issued with |
| `WireConversation.TurnsGoOutAsIssued` | crates/familiar-ai-agent/src/anthropic.rs:177-349 | The same by turns, from any registry that is faithful to the calls |
| `Conversation.EveryRequestOfARunIsFaithful` | crates/familiar-ai-agent/src/raw_runtime.rs:877-1043 | A run with one fresh adapter whose registry is seeded by each request and grows by each stream: with well-formed streams under unused ids, every request carries on the wire exactly the calls streamed in the run so far, paired, under the names and arguments they were issued with; and every tool_use input of it is an object exactly when none of those calls was malformed or parsed to something else |
| `Conversation.ConverseIsTheLoop` | crates/familiar-ai-agent/src/raw_runtime.rs:889-1043 | Run on what the adapter forwards, the loop submits exactly the requests the conversation records |
| `Conversation.ConversionSeeds` | crates/familiar-ai-agent/src/anthropic.rs:235-254 | Converting any list seeds the registry with the calls recorded in it, in order, and changes it in no other way |
| `LoopOnTheWire.EveryRequestGoesOutFaithfully` | crates/familiar-ai-agent/src/raw_runtime.rs:676-689 | Every request that any run of the loop submits is paired on the wire from any registry; where its ids are distinct and that registry is faithful to them, which this lemma does not show, it replays the issued calls |
| `StreamedCalls.StreamFold.OnEvents` | crates/familiar-ai-agent/src/anthropic.rs:492-591 | The fold over the provider's events leaves the maps, the registry and the forwarded events the theorems speak of |
| `StreamedCalls.AdapterRemembersWhatTheLoopSees` | crates/familiar-ai-agent/src/anthropic.rs:492-591 | For well-formed streams with unused ids: the adapter remembers a call exactly when the collector completes it as not malformed, with the same name and input, and keeps what it knew |
| `StreamedCalls.StreamedCallsAreNew` | crates/familiar-ai-agent/src/anthropic.rs:492-591 | On a well-formed stream every completed call has an id of its own that was not used before |
| `StreamedCalls.StreamedCallsReplayFaithfully` | crates/familiar-ai-agent/src/anthropic.rs:492-591 | A completed call is in the registry under the name and the input its recorded arguments parse to |
| `StreamedThinking.StreamIsRecalled` | crates/familiar-ai-agent/src/anthropic.rs:492-585 | After any stream, however its blocks interleave: each block index holds what its own events make of it, the thinking pending is that ended since the last remembered call, and each call is remembered with the thinking ended since the call remembered before it |
| `StreamedThinking.ThinkingIsJoinedFragments` | crates/familiar-ai-agent/src/anthropic.rs:518-583 | A thinking block that ends is pending as its start text and all its fragments, in order, with the last signature of its index |
| `StreamedThinking.BlocksDoNotMix` | crates/familiar-ai-agent/src/anthropic.rs:494-585 | What is open at a block index depends on the events of that index alone |
| `StreamedThinking.UnparsedCallKeepsThinking` | crates/familiar-ai-agent/src/anthropic.rs:556-579 | The end of a call whose arguments do not parse leaves the thinking pending for the next call |
| `StreamedThinking.TextIsForwarded` | crates/familiar-ai-agent/src/anthropic.rs:513-530 | The loop's collector receives the text of the stream, start texts and fragments, in order |
| `ReservationGuard.EveryReservationIsResolvedOnce` | crates/familiar-ai-agent/src/raw_agent.rs:88-114 | Over any executions on one host, however each leaves: no reservation is settled or released twice, and a granted budget is resolved exactly once if and only if the rollback succeeds, or finish settles, or the guard's release gets through; the amount is held only after a timeout or provider failure, and a settled run gives it back only if cancelled; hardware is resolved by the one call its stop reason asks for |
| `ReservationGuard.ExecutionResolves` | crates/familiar-ai-daemon/src/agent_runtime.rs:1582-1767 | Which event resolves the budget and which the hardware reservation of one execution, for every way it can go, and that it resolves nothing else |
| `ReservationGuard.BudgetCanOutliveItsExecution` | crates/familiar-ai-agent/src/raw_agent.rs:88-94 | An execution whose granted budget gets no resolution: the database does not open for finish, and the hardware release fails |
| `ReservationGuard.TwoHostsMintTheSameId` | crates/familiar-ai-daemon/src/run.rs:1144-1145 | Two hosts of one execution and worker for different stages, the second joining the store the first has used: their owners differ, both reserve, and both mint the same first attempt id |
| `ReservationGuard.HostsCollideExactly` | crates/familiar-ai-daemon/src/agent_runtime.rs:1621-1630 | Of two hosts on one store with distinct owners, over any executions: attempt ids coincide exactly when the stages differ and scope and counter agree |
| `ReservationGuard.AttemptIdsNeverRepeat` | crates/familiar-ai-agent/src/raw_agent.rs:410-483 | Two attempt ids minted by executions on one host are equal only if execution and counter are |
| `ReservationGuard.ScopesAreCounted` | crates/familiar-ai-daemon/src/agent_runtime.rs:1582-1607 | Every reserve whose cost is in range takes the next scope, also one the store refuses; only an execution that holds its reservations mints attempt ids |
| `ReservationGuard.AttemptIdsAgreeExactly` | crates/familiar-ai-agent/src/raw_agent.rs:476-483 | Attempt ids agree exactly when scope and counter do and execution and worker read the same joined by a colon |
| `ReservationGuard.RawAgentHost.ReserveExecutionBudget` | crates/familiar-ai-daemon/src/agent_runtime.rs:1582-1665 | The host and the store after a reserve, for every reply of the store, with the rollback |
| `ReservationGuard.RawAgentHost.AbandonExecution` | crates/familiar-ai-daemon/src/agent_runtime.rs:1680-1706 | The id is taken first; a failed local release ends it before the budget is released |
| `ReservationGuard.RawAgentHost.FinishExecution` | crates/familiar-ai-daemon/src/agent_runtime.rs:1708-1805 | Settlement by stop reason, the id cleared after it, then the hardware by its own rule, then persistence |
| `ReservationGuard.RawAgentHost.ResolveLocalReservation` | crates/familiar-ai-daemon/src/local_worker_runtime.rs:301-357 | Hardware is committed, held or given back as the stop reason says; a definite provider failure frees it, an uncertain one holds it |
| `ReservationGuard.RawAgentHost.ReleaseLocalReservation` | crates/familiar-ai-daemon/src/agent_runtime.rs:1453-1474 | The local reservation is taken before its release is tried |
| `ReservationGuard.RawAgentHost.Execute` | crates/familiar-ai-agent/src/raw_agent.rs:367-520 | Reserve, arm the guard, run, finish; the guard abandons on every exit without a successful finish |
| `ReservationGuard.RawAgentHost.ExecuteEach` | crates/familiar-ai-agent/src/raw_agent.rs:362-520 | Executions one after another on one host leave the state and the reports that the resolution and attempt-id theorems are about |
| `BacklogGraph.CompareIsKeyOrder` | crates/familiar-ai-core/src/backlog.rs:69-81 | The order of identities is a total order, and equal means the same identity |
| `BacklogGraph.IdentityOrder` | crates/familiar-ai-core/src/backlog.rs:69-81 | The number decides; of one number, suffixed identities come by suffix and ahead of the bare one |
| `BacklogGraph.FindDuplicateIdentity` | crates/familiar-ai-core/src/backlog.rs:1042-1059 | Comparing neighbours of the sorted list finds a duplicate exactly when there is one |
| `BacklogGraph.ValidateGraph` | crates/familiar-ai-core/src/backlog.rs:1632-1703 | Accepts exactly the lists whose dependencies are present, none on itself, with an acyclic graph; otherwise names a genuine offence, and a cycle is simple, closed and starts at its least member |
| `BacklogGraph.FindCycle` | crates/familiar-ai-core/src/backlog.rs:1682-1702 | Searching from every identity finds a simple cycle, or ends only if the graph can be ranked |
| `BacklogGraph.GraphSearch.Visit` | crates/familiar-ai-core/src/backlog.rs:1652-1681 | The three-colour search: it ends, keeps its invariant and its stack, or returns a simple cycle of dependencies |
| `BacklogGraph.Canonicalize` | crates/familiar-ai-core/src/backlog.rs:1685-1693 | The rotated cycle is the same cycle, starting at its least member |
| `BacklogGraph.CheckDependencies` | crates/familiar-ai-core/src/backlog.rs:1633-1650 | Self and missing dependencies are refused, and only these |
| `BacklogGraph.FinishedOrderRanks` | crates/familiar-ai-core/src/backlog.rs:1652-1681 | An order in which every visit ends after those of its dependencies is a rank function |
| `BacklogGraph.RankedHasNoCycle` | crates/familiar-ai-core/src/backlog.rs:1632-1703 | A graph that can be ranked has no closed walk, so acceptance and a cycle exclude each other |
| `BacklogScheduler.Next` | crates/familiar-ai-core/src/backlog.rs:829-886 | Empty list, refused graph, the least eligible entry in identity order, or every active entry with its reason; the three lemmas below say which entries and which reasons |
| `BacklogScheduler.SortedIsInOrder` | crates/familiar-ai-core/src/backlog.rs:839-844 | The snapshot is scanned by identity and, among equal identities, by path |
| `BacklogScheduler.SelectorAgreesWithAdmission` | crates/familiar-ai-core/src/backlog.rs:749-886 | The selector picks the least identity that admission accepts, and nothing exactly when admission accepts nothing |
| `BacklogScheduler.AdmittedIsEligible` | crates/familiar-ai-core/src/backlog.rs:749-792 | Admission accepts an entry exactly when it is active, not held, pending and its dependencies are completed |
| `BacklogScheduler.AdmitsExactly` | crates/familiar-ai-core/src/backlog.rs:749-792 | Admission accepts an entry exactly when it is active, pending, not held as draft, in_progress or blocked by its front matter, and every dependency has a completed entry; otherwise it names that word, that status or exactly the incomplete dependencies |
| `BacklogScheduler.SelectsExactly` | crates/familiar-ai-core/src/backlog.rs:829-886 | The selector picks the least such entry, and nothing exactly when there is none |
| `BacklogScheduler.EveryActiveEntryIsExplained` | crates/familiar-ai-core/src/backlog.rs:845-886 | When nothing is selected, every active entry is listed in scan order with the one reason that applies to it |
| `BacklogDrain.SelectionFailsOnlyWhenDone` | crates/familiar-ai-core/src/backlog.rs:829-886 | On an accepted backlog without holds, selection fails exactly when everything is completed |
| `BacklogDrain.DrainRunsEverything` | crates/familiar-ai-core/src/backlog.rs:829-886 | Selecting and completing repeatedly runs every pending PRD exactly once, in that many steps, each after its dependencies |
| `BacklogDrain.NothingIsSelectedExactly` | crates/familiar-ai-core/src/backlog.rs:829-886 | On a snapshot of any accepted backlog nothing is selected exactly when every pending active entry is held, or depends, through entries not completed, on one that is held, in progress, blocked, or archived without being completed |
| `BacklogDrain.DrainRunsExactlyTheFree` | crates/familiar-ai-core/src/backlog.rs:829-886 | On a snapshot of any accepted backlog, selecting and completing repeatedly runs exactly the pending active PRDs that nothing starves, each once and after its dependencies |
| `BacklogDrain.HoldsStarve` | crates/familiar-ai-core/src/backlog.rs:598-606 | With a front-matter hold a valid backlog can have pending work and select nothing |
| `RunLengthCodec.RoundTrip` | crates/familiar-ai-compress/src/lib.rs:128-191 | Decompressing the compression of any byte string gives it back |
| `RunLengthCodec.BodiesCarryTheHeader` | crates/familiar-ai-compress/src/lib.rs:128-170 | A compressed body starts with the letters FAIC and version 1, and no other body decodes |
| `RunLengthCodec.AcceptsExactlyRenderings` | crates/familiar-ai-compress/src/lib.rs:167-191 | The decoder accepts exactly the renderings of blocks of 1 to 128 bytes, and expands them |
| `RunLengthCodec.CompressedSize` | crates/familiar-ai-compress/src/lib.rs:128-165 | 5 + 2*ceil(n/128) <= size <= 5 + n + ceil(n/127) for every input of n bytes |
| `RunLengthCodec.DecompressedSize` | crates/familiar-ai-compress/src/lib.rs:167-191 | No accepted body of m bytes expands to more than 64*(m-5) |
| `RunLengthCodec.LiteralsHoldNoRun` | crates/familiar-ai-compress/src/lib.rs:128-165 | No literal block contains three equal consecutive bytes |
| `RunLengthCodec.RepeatsTakeTheirRun` | crates/familiar-ai-compress/src/lib.rs:131-140 | A repeat shorter than 128 bytes is never followed by a block that starts with its byte |
| `RunLengthCodec.Compress` | crates/familiar-ai-compress/src/lib.rs:128-165 | The nested scans emit the compression the theorems speak of, every tag fitting its seven bits |
| `RunLengthCodec.Decompress` | crates/familiar-ai-compress/src/lib.rs:167-191 | The consuming loop returns what the theorems speak of, failing on every truncated body |
| `ContextBudget.ValidateContext` | crates/familiar-ai-context/src/budget.rs:203-246 | The checks in source order, with the error of the first that fails |
| `ContextBudget.ValidationAcceptsExactlyValid` | crates/familiar-ai-context/src/budget.rs:203-272 | Validation passes exactly on contexts whose documents are honest, referenced, distinct and add up within 64 bits |
| `ContextBudget.FaultsExactly` | crates/familiar-ai-context/src/budget.rs:215-238 | Validation of the documents fails with an error exactly when that is the first fault of the first document that has one: its path, a duplicate, its reference, its estimate, or a total out of range |
| `ContextBudget.WellFormedExactly` | crates/familiar-ai-context/src/budget.rs:248-259 | A path is well formed exactly when it is a list of steps joined by slashes, none empty, a dot or two dots, or holding a separator |
| `ContextBudget.EstimateCovers` | crates/familiar-ai-context/src/budget.rs:261-271 | The estimate is the least number of fours that covers the text |
| `ContextBudget.RunBudget` | crates/familiar-ai-context/src/budget.rs:106-201 | On a valid context no checked addition or reconciliation can fail: the only error is a PRD above the ceiling |
| `BudgetOptimality.BudgetConserves` | crates/familiar-ai-context/src/budget.rs:127-201 | Included plus excluded is the input total, included is at most the ceiling, and the decisions report every document once |
| `BudgetOptimality.BudgetIsGreatest` | crates/familiar-ai-context/src/budget.rs:127-184 | The documents kept are those of a selection that fits and is the lexicographically greatest that does, in (priority, path) order; nothing excluded fits in the leftover |
| `BudgetOptimality.OrderDoesNotMatter` | crates/familiar-ai-context/src/budget.rs:127-184 | Permuting the documents of a valid context leaves it valid and changes neither the report nor the selection; kept documents stay in input order |
| `BudgetOptimality.BudgetingAgainChangesNothing` | crates/familiar-ai-context/src/budget.rs:106-201 | A budgeted context is valid and budgeting it again at the same ceiling is the identity |
| `BudgetOptimality.RankingIsUnique` | crates/familiar-ai-context/src/budget.rs:130-135 | The (priority, path) order of a set of documents is unique |
| `BudgetOptimality.KindsInOrder` | crates/familiar-ai-context/src/budget.rs:130-135 | Contracts are considered before ADRs and these before supporting documents, and within a kind by path |
| `BudgetOptimality.DecisionsTellWhatIsLeft` | crates/familiar-ai-context/src/budget.rs:137-175 | The amounts in each decision are the ceiling less the PRD and the documents kept ahead of it, before and after |
| `ReconcilerDebounce.RepoDebounce.Schedule` | crates/familiar-ai-daemon/src/backlog_reconciler.rs:304-320 | The flags after an event, and whether a task is to be spawned |
| `ReconcilerDebounce.RepoDebounce.Begin` | crates/familiar-ai-daemon/src/backlog_reconciler.rs:329-333 | The flags when a task begins to reconcile |
| `ReconcilerDebounce.RepoDebounce.End` | crates/familiar-ai-daemon/src/backlog_reconciler.rs:346-355 | The flags when a task ends, and whether it loops |
| `ReconcilerDebounce.NoEventIsLost` | crates/familiar-ai-daemon/src/backlog_reconciler.rs:36-44 | Under every interleaving of the lock sections, after an event that no reconciliation has begun after, another beginning is owed by a live task |
| `ReconcilerDebounce.EveryEventIsServed` | crates/familiar-ai-daemon/src/backlog_reconciler.rs:292-357 | Once events stop, every schedule of the tasks ends after boundedly many steps, with no event unserved |
| `ReconcilerDebounce.RunsDown` | crates/familiar-ai-daemon/src/backlog_reconciler.rs:322-357 | Each step of a task uses up one unit of what remains |
| `ReconcilerDebounce.OneReconciliationExactly` | crates/familiar-ai-daemon/src/backlog_reconciler.rs:32-35 | At most one reconciliation runs throughout a schedule exactly when no task begins while the flags say one is running |
| `ReconcilerDebounce.OverlapExactly` | crates/familiar-ai-daemon/src/backlog_reconciler.rs:322-357 | The same from any state in which the running flag is truthful |
| `ReconcilerDebounce.SingleFlightNeverOverlaps` | crates/familiar-ai-daemon/src/backlog_reconciler.rs:32-44 | While at most one task is live no two reconcile |
| `ReconcilerDebounce.LateEventNeedNotOverlap` | crates/familiar-ai-daemon/src/backlog_reconciler.rs:329-355 | An event in the hand-over window need not lead to an overlap |
| `ReconcilerDebounce.SingleFlightExactly` | crates/familiar-ai-daemon/src/backlog_reconciler.rs:304-355 | At most one task is live throughout a schedule exactly when no event lands between a task's end and its next beginning |
| `ReconcilerDebounce.TwoReconcileAtOnce` | crates/familiar-ai-daemon/src/backlog_reconciler.rs:32-35 | A schedule in which two tasks reconcile at once |
| `TargetedEdit.ApplyTargetedEdit` | crates/familiar-ai-agent/src/token_discipline.rs:182-237 | The block loop over the working copy returns the edit the theorems speak of, the refusal, or the panic of quoting it |
| `TargetedEdit.WriteSwapsTheOnlyMatch` | crates/familiar-ai-agent/src/token_discipline.rs:195-199 | A written block turns p + search + s into p + replace + s, that occurrence being leftmost and s holding no other |
| `TargetedEdit.MatchesAreMost` | crates/familiar-ai-agent/src/token_discipline.rs:194-194 | The count of matches is the greatest number of occurrences without overlaps |
| `TargetedEdit.FailsExactly` | crates/familiar-ai-agent/src/token_discipline.rs:182-237 | An edit fails with an error exactly when that is the error of its first refused block: an empty anchor, a missing or an ambiguous one with its count, or the panic of quoting it |
| `TargetedEdit.ApplyingInParts` | crates/familiar-ai-agent/src/token_discipline.rs:182-237 | Applying a concatenation of block lists is applying them in turn, error positions included |
| `TargetedEdit.AlreadyAppliedChangesNothing` | crates/familiar-ai-agent/src/token_discipline.rs:153-164 | An edit reported as already applied left the content alone |
| `TargetedEdit.ReplayIsRecognisedExactlyWhenLanded` | crates/familiar-ai-agent/src/token_discipline.rs:174-181 | Blocks are recognised as already applied exactly when no anchor occurs and every replacement is non-empty and counted once |
| `TargetedEdit.ReplayKeepsExactlyWhen` | crates/familiar-ai-agent/src/token_discipline.rs:7-13 | For blocks that all lengthen (or order upwards) the text, or all the other way, and so for any single block: applying them leaves a content exactly when each is landed there or replaces a unique text by itself |
| `TargetedEdit.QuietBlocksKeep` | crates/familiar-ai-agent/src/token_discipline.rs:7-13 | Blocks landed in a content leave it alone, whatever way they point |
| `TargetedEdit.OpposedBlocksCanCancel` | crates/familiar-ai-agent/src/token_discipline.rs:7-13 | Two blocks that undo each other leave the content though neither is landed |
| `TargetedEdit.QuotingCanPanic` | crates/familiar-ai-agent/src/token_discipline.rs:239-246 | A refused anchor whose eightieth byte lies inside a character panics instead of being reported |
| `TargetedEdit.PanicsExactly` | crates/familiar-ai-agent/src/token_discipline.rs:182-246 | A call panics over its kth block exactly when the blocks before it apply, it is refused, and its anchor has no character boundary at byte eighty |
| `TargetedEdit.QuotableNeverPanics` | crates/familiar-ai-agent/src/token_discipline.rs:182-246 | A call all of whose anchors have such a boundary, or are no longer than that, never panics, whatever the content |
| `TargetedEdit.AnchorCanPanicExactly` | crates/familiar-ai-agent/src/token_discipline.rs:239-246 | Some content and replacement make an anchor panic exactly when it cannot be cut at byte eighty |
| `TargetedEdit.OneBlockReplaysExactlyWhen` | crates/familiar-ai-agent/src/token_discipline.rs:7-13 | Applying one block to its own result gives the same content exactly when it shows as landed there, or replaces a unique text by itself |
| `TargetedEdit.ReplayCanApplyTwice` | crates/familiar-ai-agent/src/token_discipline.rs:10-13 | A block whose replay inserts a second time |
| `UnifiedDiff.ParseUnifiedDiffBlocks` | crates/familiar-ai-agent/src/token_discipline.rs:109-151 | The cursor loop over the lines returns the blocks, or the error, the theorems speak of |
| `UnifiedDiff.ReadHunkBody` | crates/familiar-ai-agent/src/token_discipline.rs:118-136 | The old and new side of a hunk body, and the cursor at the next header |
| `UnifiedDiff.DiffRoundTrip` | crates/familiar-ai-agent/src/token_discipline.rs:109-151 | Printing any hunks and parsing them back gives each old side as anchor and new side as replacement; refused exactly when there is no hunk or an empty one |
| `UnifiedDiff.BlocksAreTheSides` | crates/familiar-ai-agent/src/token_discipline.rs:142-145 | Line by line, the anchor of a hunk is its context and removed lines and the replacement its context and added ones |
| `DiffReading.UnmarkedLinesArePassedOver` | crates/familiar-ai-agent/src/token_discipline.rs:118-136 | Body lines without a mark change nothing, and a bare empty line reads as empty context |
| `DiffReading.HunksRefusedExactly` | crates/familiar-ai-agent/src/token_discipline.rs:137-151 | Reading is refused exactly when some hunk has no line on either side, and finds no hunk exactly when there is no header |
| `UnifiedDiff.FormsAgree` | crates/familiar-ai-agent/src/token_discipline.rs:102-108 | A printed diff resolves to what its blocks do when applied, and to what the same blocks sent as search/replace items resolve to |
| `UnifiedDiff.HunkLandsOnItsOldText` | crates/familiar-ai-agent/src/token_discipline.rs:254-273 | A hunk whose old text stands at one place only replaces it there and nothing around it |
| `UnifiedDiff.TerminatedLinesReadBack` | crates/familiar-ai-agent/src/token_discipline.rs:111-111 | Lines ended by a line feed read back as themselves less one trailing carriage return |
| `UnifiedDiff.ItemsReadBack` | crates/familiar-ai-agent/src/token_discipline.rs:67-100 | Items holding both texts become those blocks, in order |
| `UnifiedDiff.ItemsRefusedExactly` | crates/familiar-ai-agent/src/token_discipline.rs:67-100 | Items are refused exactly when one lacks a text; those accepted are the blocks |
| `UnifiedDiff.FormsResolve` | crates/familiar-ai-agent/src/token_discipline.rs:247-273 | A whole file is taken as it is and never for a replay; an unparsed payload is refused; a missing file is edited as an empty one |
| `DecimalMoney.DecimalToScaled` | crates/familiar-ai-agent/src/claude_code.rs:339-374 | The checked 64-bit conversion returns the scaled value for every text and every scale it can be called with |
| `DecimalMoney.ScaledIsTheRoundedValue` | crates/familiar-ai-agent/src/claude_code.rs:338-374 | Accepted with n exactly when the text is digits with an optional fraction, n is its value at the scale rounded half to even, and n fits a signed 64-bit integer |
| `Rounding.OneNearest` | crates/familiar-ai-agent/src/claude_code.rs:360-371 | The half-to-even value is unique |
| `DecimalMoney.ScaledIsMonotone` | crates/familiar-ai-agent/src/claude_code.rs:339-374 | Below an accepted amount every decimal is accepted and none converts to more |
| `DecimalMoney.PrintedMicrosReadBack` | crates/familiar-ai-agent/src/claude_code.rs:92-99 | The dollar text of the budget flag reads back as the same micro-dollars exactly up to the largest signed 64-bit value |
| `DecimalMoney.TiesGoToEven` | crates/familiar-ai-agent/src/claude_code.rs:360-371 | At every scale a tie stays on an even amount and leaves an odd one |
| `DecimalMoney.DiffersFromHalfUpExactly` | crates/familiar-ai-agent/src/claude_code.rs:333-336 | The conversion differs from half-up conversion, by one unit, exactly on a tie whose cut value is even and in range |
| `DecimalMoney.HalfAMicroIsNothing` | crates/familiar-ai-agent/src/claude_code.rs:333-336 | Half a micro-dollar converts to none, where half-up would give one |
| `Rounding.HalfUpIsNearest` | crates/familiar-ai-agent/src/claude_code.rs:333-333 | The half-up value compared with is the nearest one, ties upward |
| `DecimalMoney.KeptFits` | crates/familiar-ai-agent/src/claude_code.rs:352-359 | The kept fraction never overflows, so no intermediate step refuses a value in range |
| `BootstrapManifest.LoadManifest` | crates/familiar-ai-core/src/bootstrap.rs:118-207 | One pass, one sort, one buffer: the manifest or the errors the theorems speak of |
| `BootstrapManifest.LoadsExactly` | crates/familiar-ai-core/src/bootstrap.rs:129-184 | Loads exactly when the version is 1 and it lists at least one PRD, each an active one under its current hash, none twice; stale exactly when some entry's only fault is its hash |
| `BootstrapManifest.EntryOutcome` | crates/familiar-ai-core/src/bootstrap.rs:129-173 | Each entry is kept, or adds one error, which is a hash mismatch exactly when nothing else is wrong with it |
| `BootstrapManifest.EntryErrorExactly` | crates/familiar-ai-core/src/bootstrap.rs:129-173 | The error an entry adds names its first fault: path, duplicate path, hash, not discovered, duplicate identity, or outdated hash |
| `BootstrapManifest.ValidPathExactly` | crates/familiar-ai-core/src/bootstrap.rs:125-131 | A path is valid exactly when it is a nonempty number between the directory prefix and the extension |
| `BootstrapManifest.LoadedIsSorted` | crates/familiar-ai-core/src/bootstrap.rs:185-198 | What loads is all the entries in strict (number, path) order, encoded |
| `BootstrapManifest.ItemsAreAsListed` | crates/familiar-ai-core/src/bootstrap.rs:129-173 | Each entry has its item and each item its entry: path and hash as listed, number and suffix of the PRD discovered under that path |
| `BootstrapManifest.FingerprintsAgreeExactly` | crates/familiar-ai-core/src/bootstrap.rs:185-207 | For one discovered set and path lengths below 2^32, two accepted manifests have the same canonical bytes exactly when they list the same (path, hash) pairs |
| `CanonicalManifest.BytesArePairs` | crates/familiar-ai-core/src/bootstrap.rs:189-198 | Canonical bytes are equal exactly when paths and hashes are, item by item |
| `CanonicalManifest.ItemBytesPrefixFree` | crates/familiar-ai-core/src/bootstrap.rs:191-196 | No item's bytes begin another's, so the encoding parses back in one way |
| `CanonicalManifest.DecodeHash` | crates/familiar-ai-core/src/bootstrap.rs:246-252 | The buffer is filled with the byte of each pair of hexadecimal characters |
| `CanonicalManifest.DecodeHashInjective` | crates/familiar-ai-core/src/bootstrap.rs:246-252 | Two validated hashes decode to the same bytes only if equal |
| `CanonicalManifest.DecodedHashPrintsBack` | crates/familiar-ai-core/src/bootstrap.rs:246-252 | Printing a decoded hash in lower-case hexadecimal gives the hash |
| `CanonicalManifest.BuildCanonical` | crates/familiar-ai-core/src/bootstrap.rs:189-198 | The buffer grows to the canonical bytes |
| `CanonicalManifest.OneSortedOrder` | crates/familiar-ai-core/src/bootstrap.rs:185-187 | Strictly sorted lists of the same items are the same list |
| `StringOrder.LessIsTotal` | crates/familiar-ai-core/src/bootstrap.rs:185-187 | Any two different paths are ordered one way or the other |
| `StringOrder.LessExactly` | crates/familiar-ai-core/src/bootstrap.rs:185-187 | One path comes before another exactly when it is cut short of it or has the smaller character at the first difference |

## Left out

- The SQLite tables themselves: the durable journal is a list of intents and a map of results that refuse what the uniqueness of the call id refuses; a read of the results that fails in mid-run panics and is the death before the call; the order in which SQLite lists pending intents recorded at one instant is not modelled; a reservation-store call that reports an error is taken to have changed nothing.
- ReservationGuard.ReservationStore: pool capacities and what a settlement does to a pool are not modelled; a grant gives out a number never given out before, and the uniqueness of owners is a hypothesis where two hosts share a store (`HostsCollideExactly`).
- ResumeSafety.EveryHistoryIsSafe: holds of lives begun through the readiness gate on the reference journal; what ungated lives can do there is in `ResumeGate`, and the journal of the shipped host in `DurableJournal`.
- ResumeGate.UngatedSecondLifeRepeats: about the reference journal, like `UngatedBreaksExactly`, `GateIsExact` and `GateIsExactOnHistories`; the host of this repository runs on the durable one.
- LoopOnTheWire.EveryRequestGoesOutFaithfully: speaks of one request and takes the registry's faithfulness as given; `Conversation` shows a run keeps it.
- TargetedEdit.ReplayKeepsExactlyWhen: blocks that point against each other are outside it, see `OpposedBlocksCanCancel`.
- ReservationGuard.EveryReservationIsResolvedOnce: executions on one host follow one another; two at once on one host are not modelled.
- LoopAccounting.EveryRunAccounts: the iteration counter and the token sum are unbounded, so their 32- and 64-bit wrap-around is not modelled.
- CallAnswers.EveryRunAnswers: the texts of refusals are stated without the debug form of their reason that the source adds.
- StreamedThinking.StreamIsRecalled: tells what one stream leaves in the registry; that later streams of a run keep it is part of `Conversation`.
- AgentLoop.RunLoop: cancellation is seen between turns, where the loop polls it; a cancellation or deadline that cuts a submission short is the submission's `NoAnswer`.
- StreamedCalls.AdapterRemembersWhatTheLoopSees: assumes, as the JSON grammar gives, that the empty text is no JSON value, and that ids and block indices of a stream are unused when opened; so does `Conversation`, with null parsing to null and serialized values parsing back to themselves.
- ReconcilerDebounce.NoEventIsLost: each lock section is one step; the outer map of repositories, timers and the reconciliation itself are not modelled.
- BacklogDrain.DrainRunsExactlyTheFree: a PRD goes from pending to completed in one step; what happens to one in progress is outside selection.
- BacklogScheduler.Next: the snapshot is a parameter; discovery, reconciliation and persistence behind it are not modelled.
- BacklogGraph.ValidateGraph: which of several offences is named first is not stated, only that the one named is genuine; text of the messages is left out.
- UnifiedDiff.DiffRoundTrip: texts with a line feed inside, or a carriage return at the end, cannot be carried by a line format and are excluded; what becomes of a trailing carriage return is stated by `TerminatedLinesReadBack`.
- DecimalMoney.DecimalToScaled: scales above 19 overflow the power of ten and are excluded; the callers use 6 and 9.
- BootstrapManifest.FingerprintsAgreeExactly: stated on the canonical bytes, not on their SHA-256 digest; reading the file, TOML and the dependency closure are left out.
- Error and diagnostic texts: errors are named constructors; joining, sorting and shortening their messages is not modelled.
- JSON, SHA-256, argument hashes and evidence fields such as the edit form: JSON parsing is a parameter, hashes are left out.
- The concrete policy of the authorizers and the sandboxed executor: both are arbitrary in the model.
- The other provider adapters, request bodies, retries, credentials, HTTP and the event-stream transport.
- The endpoint mode and the typed parts around the codec, the command-line workers, the worker registry, reports and user interfaces.
- Filesystem discovery, git identity and path containment: the models start from parsed values.
