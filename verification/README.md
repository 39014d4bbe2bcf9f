# Verified model of the chat agent

The project models the parts of the agent whose correctness cannot be read off one
function: the normal form of replayed tool history and everything built on it
(request budgeting, the agent loop, the stored log, compaction), two concurrency
protocols (the MCP session slot and the scheduler loop), and the text cores (Markdown
to MarkdownV2, message splitting, the two polling queues, Zulip conversation ids).

`dafny verify dfyconfig.toml` checks everything. Every lemma switches automatic induction
off, so each proof is the one that is written.

| module | models |
|---|---|
| Text, Json, Messages | strings as UTF-8 text, JSON string literals, messages as a role and a list of parts |
| History, HistoryScan | the unit scan as a specification, and its loops proved to compute it |
| Renames, NormalForm, UnitCuts, HistoryContent | theory of the scan: fresh ids, the normal form, unit boundaries, and what the normal form keeps of every message |
| AgentLoop, SessionLog, ScheduledRun | one turn of the tool loop; any interleaving of turns writing one session; a scheduled job as such a writer |
| Storage, ContextBudget | rows and summaries as listed; assembling a request within the budget |
| CompactionPrompt, CompactionContent, CompactionWorker | choosing rows, what the model then reads, one compaction |
| CompactionProtocol, CompactionProgress | all interleavings of compactions, and what an undisturbed one achieves |
| McpSession, Scheduler | step systems with cancellation, timeouts, shutdown and time |
| TelegramPoll, ZulipPoll | the two polling queues as classes, and every schedule of polls and arrivals |
| MarkdownGrammar, MarkdownParser, MarkdownText | the parser as a function, as mutually recursive methods, and what it keeps of its input |
| MarkdownPrinter, MarkdownVisible | escaping, reading it back, and the visible text of a whole message |
| MarkdownLiteral, MarkdownConversion, MarkdownLimits | what stays as it is typed, what each common use of Markdown converts to, and where a backslash spoils it |
| TelegramSplit, ZulipAddress | splitting long messages; joining and splitting participants |

Code that changes state step by step is a method or a class proved against a
specification function; what the source promises is proved about that function. Protocols
with several parties are step systems: one function per step, an invariant, and theorems
over every finite run. A step that is not possible where the system stands changes
nothing, so the runs quantified over include every real one.

Where the code and what it is for part ways, the code is modelled and the exact condition
is proved:

- `split_long_message` counts characters but cuts the rest at that many bytes.
  `TelegramSplit.SplitLossless` says exactly when nothing is lost, repeated or cut inside a
  character; `TelegramSplit.AccentsAreRepeated` is a concrete text that comes out longer.
- `escape_text` does not escape the backslash. `MarkdownPrinter.EscapedTextReadsBack` says
  exactly which texts survive; `MarkdownPrinter.BackslashIsLost` is one that does not.
- `truncate_str` cuts before the last character that starts within the limit.
  `CompactionPrompt.TruncateKeepsAllThatFitsWhen` says exactly when it keeps all that fits;
  `CompactionPrompt.AsciiLosesOne` is a whole family of texts that lose a character.
- The scheduler claims a job on what it read, not on what is stored by then.
  `Scheduler.ClaimIsEarlyWhenPutOff` says exactly when a claim is early: the job has been
  deleted, or the final write of an earlier run has put back its next run, since it was
  read. `Scheduler.EarlyClaim` is such a run, and `Scheduler.ClaimIsOnTimeWhenAlone`
  covers every job that has no run of its own in flight.

In one place the condition goes one way: a backslash left in the text can escape a mark of
the print. `MarkdownVisible.UserSeesTheInput` covers every input in whose parsed text each
backslash stands before a character that is neither escaped in print nor a backslash,
whatever code and link targets hold; `MarkdownVisible.WellEscapedIsSeen` gives a condition
on the input alone; `MarkdownLimits.HeadingBackslashIsLost` is one outside that fails.

## Model

| member | source | states |
|---|---|---|
| History.CandidatesDiffer | src/context/history.rs:65-70 | generated names for different suffixes differ, since decimal rendering is injective |
| History.TakenSuffixesBounded | src/context/history.rs:66-70 | no more suffixes can be taken than there are ids seen, which is why the search for a name ends |
| History.FreshId | src/context/history.rs:64-71 | the name found is unused and is the first unused one |
| History.RenderHistoricalText | src/context/history.rs:145-186 | rendered history is never a tool message and holds only text and binary parts |
| History.RenderingTellsAll | src/context/history.rs:145-186 | rendering tells every call, argument, outcome, reasoning, text and attachment in order, with the note on protocol; only signatures go, and a response no longer names its function |
| History.RenderingsDiffer | src/context/history.rs:153-161 | a rendered call is never the same text as a rendered output |
| Json.LiteralReadsBack | src/context/history.rs:162-167 | every reasoning text can be read back from the JSON literal it is shown as |
| HistoryScan.CheckBatch | src/context/history.rs:34-38 | a batch passes exactly when its ids are nonempty and distinct |
| HistoryScan.CheckOutputs | src/context/history.rs:46-59 | outputs pass exactly when they are nothing but responses with distinct, expected ids |
| HistoryScan.CheckExchange | src/context/history.rs:34-60 | the flag and the two sets decide exactly whether every call is answered once and nothing else is present |
| HistoryScan.FindFreshId | src/context/history.rs:65-70 | the renaming loop ends, with the specified fresh name |
| HistoryScan.RenameReused | src/context/history.rs:62-74 | the map of reused ids and the updated seen set are those of the specification |
| HistoryScan.TreatRow | src/context/history.rs:24-118 | one unit is kept, rewritten or turned into text as specified |
| HistoryScan.ScanUnits | src/context/history.rs:20-121 | the whole scan, with its run loop and its seen set, computes the specified units |
| Renames.ClaimedIdsAreFresh | src/context/history.rs:62-74 | the ids of a batch after renaming are distinct, nonempty and disjoint from all earlier ids, even when originals look generated |
| Renames.RenamedAgrees | src/context/history.rs:62-92 | each call ends with the id it claimed, and the map remembers its own name |
| Renames.RewriteKeepsExchange | src/context/history.rs:75-95 | simultaneous rewriting turns a complete exchange into a complete exchange with the claimed ids |
| Renames.RenamingKeepsContent | src/context/history.rs:75-95 | roles, part order, names, arguments and payloads are untouched by renaming |
| Renames.RenamingKeepsAnswers | src/context/history.rs:75-95 | a response answers a call after renaming iff it did before, and a renamed response carries that call's name |
| NormalForm.NormalFormConcat | src/context/history.rs:14-19 | at any cut not before a tool message, a list is in normal form iff both halves are and share no id |
| NormalForm.TreatNormal | src/context/history.rs:61-118 | whatever a unit was, its replacement is in normal form with ids not used before |
| NormalForm.NormalizeIsNormal | src/context/history.rs:20-128 | for every message list, normalising yields the normal form: outputs directly follow their batch, answered exactly once, unique ids, no protocol elsewhere |
| NormalForm.TreatFixed | src/context/history.rs:61-118 | a unit in normal form with unused ids is returned as it is |
| NormalForm.ScanNormal | src/context/history.rs:20-121 | the scan passes over any stretch in normal form without changing it |
| NormalForm.NormalFormIsFixedPoint | src/context/history.rs:20-128 | a list is in normal form iff normalising leaves it unchanged |
| NormalForm.NormalizeIdempotent | src/context/history.rs:123-128 | normalising twice is normalising once |
| HistoryContent.NormalizeTells | src/context/history.rs:20-128 | for every history and every message: in a complete exchange it keeps its role and each part at its place up to ids; any other tool message or protocol becomes text that tells every part in order, marked as incomplete, a tool message as the user's; everything else is unchanged |
| HistoryContent.NoPartIsLost | src/context/history.rs:20-128 | every part of every message is at its own place up to ids, or its message still tells it |
| UnitCuts.UnitsCover | src/context/history.rs:9-13 | units partition the rows into contiguous nonempty ranges with one message per row |
| UnitCuts.NormalizeKeepsLength | src/context/history.rs:123-128 | normalising keeps the number of messages |
| UnitCuts.CutsAreUnitEnds | src/context/history.rs:20-121 | the ends of units are exactly the places where no exchange is split, a property of the neighbouring rows alone |
| UnitCuts.CutsSurviveAppends | src/context/history.rs:26-33 | a unit boundary stays one whatever is appended, and a non-boundary never becomes one |
| UnitCuts.NormalizePrefix | src/context/history.rs:20-128 | normalising a unit-aligned prefix is the prefix of normalising the whole |
| UnitCuts.ShapesOfUnits | src/context/history.rs:20-121 | ranges and verdicts do not depend on the ids seen before |
| UnitCuts.CutIsHarmless | src/context/history.rs:20-121 | analysing both halves at a unit boundary gives the ranges and verdicts of the whole, shifted |
| UnitCuts.CompactionPrefixIsGreatestCut | src/context/history.rs:190-198 | the prefix is the greatest unit boundary that leaves the preserved rows alone |
| UnitCuts.RecentIsFewest | src/context/history.rs:201-215 | the trailing units kept cover the requested rows or are all, and any fewer would not cover them |
| UnitCuts.RecentHistory | src/context/history.rs:201-215 | the loop from the newest unit keeps exactly those units, in order |
| AgentLoop.ResponsesAnswerInOrder | src/agent/agent_loop.rs:186-234 | one response per call, in call order, with the call's id |
| AgentLoop.RoundIsValidWhen | src/agent/agent_loop.rs:236-248 | a round stays structured iff the model's ids are distinct and nonempty and it sent no outputs itself |
| AgentLoop.RenormaliseTouchesOnlyTheEnd | src/agent/agent_loop.rs:244-248 | renormalising after the append leaves every earlier message unchanged and treats only the new pair |
| AgentLoop.InitialIsNormal | src/agent/agent_loop.rs:57-66 | the first request is in normal form |
| AgentLoop.RequestIsNormal | src/agent/agent_loop.rs:79-96 | every request of every run is in normal form |
| AgentLoop.RequestIsInitialPlusPairs | src/agent/agent_loop.rs:79-96 | each request is the first one followed by the pairs so far |
| AgentLoop.InitialTells | src/agent/agent_loop.rs:57-66 | the first request is the personality, when there is one, and then the whole history, each message as normalising leaves it |
| AgentLoop.NextRequestRecords | src/agent/agent_loop.rs:186-248 | each step with calls adds two messages: with usable ids the reply and its reasoning up to ids, and for the j-th call the content its tool reported, under that call's id and name; otherwise text that tells all of it in order |
| AgentLoop.PairsRecord | src/agent/agent_loop.rs:244-260 | the rows of the completed rounds are, two by two, such records |
| Messages.JoinedShowsTexts | src/agent/agent_loop.rs:110 | a joined text shows every text part in order, and there is one iff there is a text part |
| AgentLoop.MessageStore.CreateToolExchange | src/storage/messages.rs:235-251 | both rows are appended, or neither |
| AgentLoop.ExecuteAll | src/agent/agent_loop.rs:186-234 | the loop over the calls gathers the responses that NextRequestRecords is about, and notices a sent user message |
| AgentLoop.CompleteRound | src/agent/agent_loop.rs:176-260 | the last two messages after renormalising are exactly the new pair, and they are what is persisted |
| AgentLoop.RunAgent | src/agent/agent_loop.rs:51-280 | at most the configured number of model calls; every reply but the last led to a recorded round; the rows appended are two for each completed round and hold its calls and what its tools reported; the outcome is the one the last reply calls for |
| SessionLog.EntryReadsBack | src/storage/messages.rs:235-251 | a committed entry alone is read back as one unit, or as plain rows |
| SessionLog.LogReadsBack | src/context/history.rs:28-103 | replaying the whole log finds exactly the entries committed, whatever ids other runs used |
| SessionLog.AppendKeepsUnits | src/context/history.rs:28-103 | appending keeps every unit, names included, and every boundary |
| SessionLog.RoundPersistsWholePair | src/agent/agent_loop.rs:244-260 | the persisted pair is a complete exchange or plain text |
| SessionLog.NextKeepsCoherence | src/agent/agent_loop.rs:244-260 | every step of every writer keeps the log made of whole entries |
| SessionLog.EveryInterleavingIsCoherent | src/storage/messages.rs:235-251 | in every interleaving of runs the log reads back entry by entry, and its units and boundaries survive all later steps |
| ScheduledRun.PairsAreWhole | src/agent/agent_loop.rs:244-260 | the rows persisted by the rounds of a turn are whole entries |
| ScheduledRun.JobRowsAreWhole | src/scheduler/runner.rs:84-130 | prompt, rounds and final text of a job are whole entries, whichever writes commit |
| ScheduledRun.RunScheduledJob | src/scheduler/runner.rs:26-170 | however a job ends, the rows it appends start with its prompt, end with its final text if that is committed, hold its completed rounds between, and read back as whole entries |
| Storage.DecodeAll | src/context/manager.rs:222-226 | either every row is decoded in place or some row cannot be |
| Storage.ReplayedRows | src/context/manager.rs:192-212 | what is replayed is exactly the rows after the summary's boundary, in order |
| ContextBudget.PairedCostBounds | src/context/manager.rs:232-244 | with a row for each message, a unit is charged at least its rows' stored estimates, at least what its messages estimate to, and never more than both |
| ContextBudget.TokensMeasureBytes | src/context/manager.rs:288-318 | an estimate is a quarter of the bytes the messages say, give or take one token for each message |
| ContextBudget.GreedyIsOptimal | src/context/manager.rs:228-250 | the greedy choice fits, and no choice that fits is lexicographically greater |
| ContextBudget.SelectionPrefersNewest | src/context/manager.rs:228-250 | among all unit subsets within budget, the one kept is lexicographically greatest from the newest unit on |
| ContextBudget.ChosenNormal | src/context/manager.rs:227-251 | dropping whole units anywhere leaves a normal form |
| ContextBudget.ChosenWithinCost | src/context/manager.rs:232-250 | the messages kept estimate to no more than their units were charged |
| ContextBudget.SelectUnits | src/context/manager.rs:228-251 | the loop from the newest unit computes the specified selection in chronological order |
| ContextBudget.BoundMessages | src/context/manager.rs:217-258 | selection fails iff a row cannot be decoded, otherwise returns the specified units |
| ContextBudget.SelectionIsWholeUnits | src/context/manager.rs:217-258 | the history kept is, in order, the normalised messages of whole units, for the choice of units that no other within budget beats from the newest on |
| ContextBudget.SelectionFits | src/context/manager.rs:217-258 | the history kept is in normal form and within the budget |
| ContextBudget.AssemblyFits | src/context/manager.rs:122-139 | fixed messages, kept history and prompt fit together, and normalising them changes nothing |
| ContextBudget.AssembleMessages | src/context/manager.rs:95-150 | a successful assembly is the personality verbatim, the summary's text in a system message, the best choice of whole units of the rows after the boundary, each message told or kept, and the current message; its bytes are within four times the usable budget and three for each message; the two error cases are exact; the agent loop sends it unchanged |
| CompactionPrompt.TruncateBounds | src/context/compaction_worker.rs:364-375 | the cut is the longest prefix that fits, or exactly one whole character short of it |
| CompactionPrompt.TruncateKeepsAllThatFitsWhen | src/context/compaction_worker.rs:364-375 | the cut keeps all that fits iff the text is short enough or the limit falls inside a character |
| CompactionPrompt.AsciiLosesOne | src/context/compaction_worker.rs:364-375 | every ASCII text over the limit loses a character that would have fitted |
| CompactionPrompt.BuildCompactionPrompt | src/context/compaction_worker.rs:226-300 | the growing buffer is the prompt that PromptReads is about |
| CompactionPrompt.PromptOfUnits | src/context/compaction_worker.rs:205-221 | the prompt of the first units is built from a prefix of the lines of all units |
| CompactionPrompt.PromptGrows | src/context/compaction_worker.rs:205-213 | adding units never shortens the prompt |
| CompactionPrompt.LargestFitIsLargest | src/context/compaction_worker.rs:182-184 | the linear scan finds the one count that fits while no larger one does |
| CompactionPrompt.FitsIsDownwardClosed | src/context/compaction_worker.rs:205-213 | if a unit count fits, every smaller one does |
| CompactionPrompt.SearchUnits | src/context/compaction_worker.rs:202-222 | the binary search finds what the linear scan finds |
| CompactionPrompt.BoundCompactionPrompt | src/context/compaction_worker.rs:185-223 | the result is the largest number of whole units whose prompt fits, with both error cases exact |
| CompactionPrompt.PlanIsWholeUnits | src/context/compaction_worker.rs:157-223 | the rows fed are a prefix of the unsummarised ones, end at a unit boundary, spare the preserved rows and fit |
| CompactionPrompt.PlanIsGreatest | src/context/compaction_worker.rs:157-223 | no longer prefix of the unsummarised rows ends at a unit boundary, spares the preserved rows and fits |
| CompactionContent.PromptReads | src/context/compaction_worker.rs:226-300 | the prompt holds the text of the existing summary, and after it, in order, an entry for every readable row, labelled with its speaker, whose text mentions every text, call, argument, output, metadata and reasoning of the row; a text of over 2000 bytes is cut as TruncateBounds says |
| CompactionContent.RoleLabelsDiffer | src/context/compaction_worker.rs:263-268 | no speaker's label can be taken for another's |
| CompactionWorker.SummaryTable.Create | src/storage/summaries.rs:34-61 | the summary becomes the latest, or the table is unchanged |
| CompactionWorker.SummaryTable.Delete | src/context/compaction_worker.rs:340-361 | only the named summary goes |
| CompactionWorker.DeletingAnotherKeepsLatest | src/context/compaction_worker.rs:106-128 | deleting the old summary leaves the new one the latest |
| CompactionWorker.Compact | src/context/compaction_worker.rs:58-138 | a run either leaves the table alone or stores one summary of exactly the planned rows and then removes the old one; whatever leaves the replayed rows or the table was in the prompt the model answered; it succeeds exactly when there is a plan, a nonempty reply and a committed store |
| CompactionProtocol.CompactionService.TriggerCompaction | src/context/compaction_service.rs:130-169 | a worker is spawned iff the session was idle, else the session is marked dirty |
| CompactionProtocol.CompactionService.FinishCompaction | src/context/compaction_service.rs:187-201 | finishing frees its own session, dirty or not, and no other |
| CompactionProtocol.Conservation | src/context/manager.rs:192-212 | the log is what has been summarised followed by what is replayed |
| CompactionProtocol.CutRowSurvivesAppend | src/context/manager.rs:199-200 | a boundary that splits no exchange splits none after later appends |
| CompactionProtocol.PlanIsNextBatch | src/context/compaction_worker.rs:157-223 | a plan made from the latest summary is the next batch of whole units after the boundary |
| CompactionProtocol.DeleteKeepsSession | src/context/compaction_worker.rs:116-128 | deleting the old summary moves no boundary |
| CompactionProtocol.NextKeepsInvariant | src/context/compaction_service.rs:130-205 | every step of every party, including restarts, keeps single flight and conservation |
| CompactionProtocol.OneWorkerPerBusySession | src/context/compaction_service.rs:141-201 | in every run at most one worker is live per session, and one is iff the session is marked running |
| CompactionProtocol.HistoryIsConserved | src/context/compaction_worker.rs:58-138 | in every run the batches fed to successful compactions and the replayed rows concatenate to the log, each row once and in order |
| CompactionProtocol.SummarisedOnlyGrows | src/context/compaction_worker.rs:100-128 | over any later steps, restarts included, the log and what has been summarised of it only grow |
| CompactionProtocol.CoveredIsBoundary | src/context/compaction_worker.rs:100-112 | the row the latest stored summary covers through is the last row summarised |
| CompactionProtocol.StoreMovesStoredBoundary | src/context/compaction_worker.rs:100-114 | a store moves the boundary named by the latest summary strictly forward in the log, by its batch |
| CompactionProtocol.StoredBoundaryNeverMovesBack | src/context/compaction_worker.rs:100-128 | over any later steps the boundary named by the latest summary never moves back in the log |
| CompactionProgress.UndisturbedCompactionSucceeds | src/context/compaction_service.rs:130-205 | after any run, an undisturbed compaction of an idle session with a plan summarises exactly the plan, replaces the summary before it, and leaves the session idle and everything else alone |
| McpSession.NextKeepsInvariant | src/mcp/client.rs:66-226 | every step, with cancellation, timeout and shutdown at any await, keeps the slot invariant |
| McpSession.NoLostResponseInFreeSlot | src/mcp/client.rs:141-171 | whenever the lock is free and the slot holds a session, no request sent on it is unanswered |
| McpSession.LostSessionNeverReused | src/mcp/client.rs:210-226 | a session with a lost response is never in the slot again |
| McpSession.UnansweredDropDiscards | src/mcp/client.rs:216-226 | dropping a lease with a request outstanding empties the slot at that step |
| McpSession.ShutdownIsFinal | src/mcp/client.rs:173-182 | once shutdown has returned the slot is empty in every later state and nothing more is dispatched |
| McpSession.AnsweredCallKeepsSession | src/mcp/client.rs:66-171 | after any run, a call that finds a session in the free slot and is answered leaves that session there for the next one |
| Scheduler.NextKeepsInvariant | src/scheduler/service.rs:125-316 | every step of the loop, of spawned jobs, of commands and tools writing rows, and of the service keeps the invariant; a claim may commit after a stop has been sent |
| Scheduler.NoLostWakeUp | src/scheduler/service.rs:128-293 | a loop asleep past the due time of an enabled job has a stored permit, a writer about to notify, or an unfinished job run that will; or it sleeps after an error, for at most five more seconds |
| Scheduler.ClaimFollowsItsFetch | src/scheduler/service.rs:128-186 | each claim has a fetch of its own before it, which read the job earliest, enabled and due at the time acted on; the loop held it from then on and claimed nothing between |
| Scheduler.RowAfterStep | src/storage/jobs.rs:204-375 | a step stores exactly the row it writes and leaves every other |
| Scheduler.ClaimIsEarlyWhenPutOff | src/scheduler/service.rs:128-248 | a job is claimed while it is disabled or due later iff, of the writes to its row since its fetch, the last is a delete or the final write of an earlier run with no next run or a later one; then a wake-up is outstanding |
| Scheduler.ClaimIsOnTimeWhenAlone | src/scheduler/service.rs:128-248 | a job with no run of its own in flight when it is fetched, and not deleted since, is enabled and due when it is claimed |
| Scheduler.ClaimedRowOrWakeUp | src/scheduler/service.rs:146-186 | every claim is of an enabled job whose current due time has come, or a wake-up is outstanding |
| Scheduler.EarlyClaim | src/scheduler/service.rs:173-248 | after a run-now during its first run, whose final write comes between fetch and claim, a job is claimed at time 0 although its row is due at 100 |
| Scheduler.EachClaimIsRun | src/scheduler/service.rs:173-256 | in every run each claim leads to one dispatched run of the claimed job, in order, and nothing else is dispatched |
| Scheduler.WokenLoopClaims | src/scheduler/service.rs:128-186 | a loop whose time has come or for which a permit is stored can claim the earliest enabled job if it is due, whatever it waited for |
| Scheduler.StopLeavesNothingRunning | src/scheduler/service.rs:302-316 | when stop has returned the loop is gone and no dispatched job runs |
| Scheduler.StopEnds | src/scheduler/service.rs:260-316 | a waiting loop obeys a stop, which returns once no dispatched job runs |
| TelegramPoll.LongPoll.Poll | src/telegram/update/poll.rs:44-65 | the pending queue, the offset loop and the failed and empty replies, as one transition |
| TelegramPoll.AvailableIsRest | src/telegram/update/poll.rs:49 | the updates the server still offers are those after the ones counted so far |
| TelegramPoll.AdvancedIsLast | src/telegram/update/poll.rs:56-62 | after a batch the offset is one past its last update |
| TelegramPoll.NextKeepsInvariant | src/telegram/update/poll.rs:44-65 | arrivals, polls, failures and cancelled polls keep yielded and pending the updates below the offset |
| TelegramPoll.DeliversOnceInOrder | src/telegram/update/poll.rs:44-65 | in every schedule yielded plus pending is the log up to the offset, and no update is acknowledged before it is yielded |
| TelegramPoll.PollYieldsNext | src/telegram/update/poll.rs:44-65 | after any schedule, while an update has not been yielded, a poll answered with one yields the next |
| ZulipPoll.EventQueue.Register | src/zulip/update/poll.rs:57-62 | a registered queue replaces id and cursor together, a failed one changes nothing |
| ZulipPoll.EventQueue.TryYield | src/zulip/update/poll.rs:66-81 | the first message event is yielded and everything before it dropped |
| ZulipPoll.EventQueue.BufferAll | src/zulip/update/poll.rs:163-171 | the cursor is the greatest id and exactly the message events are buffered, in order |
| ZulipPoll.EventQueue.FetchEvents | src/zulip/update/poll.rs:140-174 | registration, request, expiry and failure lead to the specified state |
| ZulipPoll.EventQueue.Poll | src/zulip/update/poll.rs:125-132 | one poll as a transition |
| ZulipPoll.YieldTakesFirst | src/zulip/update/poll.rs:66-81 | yielding removes exactly the first message of the buffer, and a buffer without one is emptied |
| ZulipPoll.BatchKeeps | src/zulip/update/poll.rs:163-171 | buffering the next events moves the cursor past exactly them and loses no message |
| ZulipPoll.PollKeeps | src/zulip/update/poll.rs:125-174 | every poll, with registration or expiry on the way, keeps yielded and buffered messages in step with the cursor |
| ZulipPoll.DeliversQueueInOrder | src/zulip/update/poll.rs:125-174 | in every schedule yielded plus buffered messages are those of the current queue up to the cursor, and the buffer is empty at each registration |
| ZulipPoll.PollYieldsNext | src/zulip/update/poll.rs:125-174 | after any schedule, while the queue has a message not yielded, a poll answered in full yields the next |
| MarkdownGrammar.Find | src/telegram/markdown.rs:79-115 | the end of a code span, a link target or a line is the first occurrence of its closer, or the end |
| MarkdownGrammar.TurnAt | src/telegram/markdown.rs:216-400 | every turn of the loop moves forward and stays in bounds |
| MarkdownGrammar.ParseFrom | src/telegram/markdown.rs:205-405 | the mutual recursion ends, within bounds, at the end of the input or at a delimiter of its caller |
| MarkdownParser.Parser.ReadUntil | src/telegram/markdown.rs:83-101 | the reading loops collect exactly what stands before the closer |
| MarkdownParser.Parser.ParseCodeBlock | src/telegram/markdown.rs:79-102 | language up to the newline, code up to the fence |
| MarkdownParser.Parser.ParseInlineCode | src/telegram/markdown.rs:104-115 | code up to the next backtick |
| MarkdownParser.Parser.TryParseLink | src/telegram/markdown.rs:117-150 | a link is read as specified, and a failed attempt puts the cursor back |
| MarkdownParser.Parser.HasMatchingDelimiter | src/telegram/markdown.rs:152-184 | the search finds a closing delimiter iff there is one |
| MarkdownParser.Parser.CanOpenDelimiter | src/telegram/markdown.rs:186-203 | whitespace, inside-word underscores and unclosed delimiters stay literal |
| MarkdownParser.Parser.ParseHeadingLine | src/telegram/markdown.rs:379-393 | the rest of the line is parsed by a parser of its own |
| MarkdownParser.Parser.TakeTurn | src/telegram/markdown.rs:229-400 | each branch of the loop does what the grammar says at that position |
| MarkdownParser.Parser.ParseNodes | src/telegram/markdown.rs:205-405 | the loop with its pending text computes the specified nodes and stops where specified |
| MarkdownText.CodeBlockStrikes | src/telegram/markdown.rs:79-102 | a code block drops only its fences, outer whitespace of the language and the newline after it |
| MarkdownText.LinkStrikes | src/telegram/markdown.rs:117-150 | a link drops only its brackets |
| MarkdownText.StruckInLine | src/telegram/markdown.rs:381-393 | what a heading's own parser strikes out of its line is struck out in place |
| MarkdownText.TurnStrikes | src/telegram/markdown.rs:216-400 | each turn keeps what it consumes up to struck-out markup |
| MarkdownText.ParseStrikes | src/telegram/markdown.rs:205-405 | so does every call, with the nodes and text already gathered |
| MarkdownText.StruckStrikes | src/telegram/markdown.rs:205-405 | whatever may be struck out is markup or whitespace |
| MarkdownText.StruckKeepsWhitespace | src/telegram/markdown.rs:205-405 | where no heading and no code starts no whitespace is lost |
| MarkdownText.StrikesMeans | src/telegram/markdown.rs:205-405 | striking out gives a subsequence with every other character kept |
| MarkdownText.ParseKeepsText | src/telegram/markdown.rs:205-405 | for every input the nodes' text is the input with markup struck out, and whitespace only after heading hashes and around a fence's language: nothing invented, reordered or lost |
| MarkdownPrinter.EscapeChars | src/telegram/markdown.rs:408-449 | the escaping loops put a backslash before exactly the special characters |
| MarkdownPrinter.EscapedContentReadsBack | src/telegram/markdown.rs:423-449 | escaped content is read back whole, stopping at the printer's closing delimiter |
| MarkdownPrinter.CodeReadsBack | src/telegram/markdown.rs:423-435 | code between backticks reads back, whatever it holds |
| MarkdownPrinter.UrlReadsBack | src/telegram/markdown.rs:437-449 | so does a link target |
| MarkdownPrinter.EscapedTextReadsBack | src/telegram/markdown.rs:408-421 | text reads back iff none of its backslashes stands before a character it would escape |
| MarkdownPrinter.BackslashIsLost | src/telegram/markdown.rs:408-421 | a text whose backslash disappears |
| MarkdownVisible.VisibleNode | src/telegram/markdown.rs:451-487 | what a printed node shows, in front of any further text, is the node's text but for backslashes that escape in print |
| MarkdownVisible.EmptyCodeEnds | src/telegram/markdown.rs:229-258 | empty inline code is never followed by a backtick, so its print is never read as a fence |
| MarkdownVisible.ParseReadable | src/telegram/markdown.rs:205-405 | for a well-escaped input every parsed tree prints readably: languages on one line, backslashes inert, no code after empty code |
| MarkdownVisible.SeenIsShown | src/telegram/markdown.rs:451-493 | what is seen of such a tree is its text |
| MarkdownVisible.UserSeesTheInput | src/telegram/markdown.rs:489-493 | for every input that parses to such a tree the visible message is the input with only markup struck out, whitespace going only next to heading hashes and fences |
| MarkdownVisible.WellEscapedIsSeen | src/telegram/markdown.rs:489-493 | that covers every input whose backslashes each stand before a character, a second backslash before one the printer does not escape, and none before the newline that ends a heading |
| MarkdownLimits.HeadingBackslashIsLost | src/telegram/markdown.rs:408-421 | a heading that ends in a backslash is seen as an asterisk the input never had |
| MarkdownLimits.BackslashBetween | src/telegram/markdown.rs:408-465 | two backslashes between delimiters are seen faithfully iff the delimiter is not a single asterisk |
| MarkdownLiteral.RestStep | src/telegram/markdown.rs:205-405 | the print is made turn by turn: each adds its own to that of the rest, whatever stands around it |
| MarkdownLiteral.LiteralTextConverts | src/telegram/markdown.rs:152-203 | text is shown as typed when no character starts markup where it stands: a delimiter inside a word, before a blank or with no closer further on, a last backtick, a bracket with no target after it, a hash inside a line or without its space |
| MarkdownLiteral.WordsKeepUnderscores | src/telegram/markdown.rs:195-200 | so underscores inside words stay, as in `my_var_name` |
| MarkdownLiteral.SpacedMarksStay | src/telegram/markdown.rs:186-194 | and marks before blanks, as in `2 * 3 * 4` |
| MarkdownLiteral.QuotedTextConverts | src/telegram/markdown.rs:357-365 | every text is shown as it is when typed with a backslash before each markup character |
| MarkdownConversion.PlainTextConverts | src/telegram/markdown.rs:205-421 | text without markup is escaped and nothing else |
| MarkdownConversion.OneNodeBetween | src/telegram/markdown.rs:205-493 | in text where nothing else starts markup a construct is converted as it would be alone |
| MarkdownConversion.StyledPhraseConverts | src/telegram/markdown.rs:267-356 | a phrase between bold, underline, italic or strikethrough delimiters keeps its style in MarkdownV2's marks, wherever it stands in text where nothing else starts markup (underscores not inside a word) |
| MarkdownConversion.InlineCodeConverts | src/telegram/markdown.rs:104-115 | inline code without a backtick keeps its content, wherever it stands in such text |
| MarkdownConversion.CodeBlockConverts | src/telegram/markdown.rs:79-102 | a code block whose code closes no fence keeps its content and, trimmed, its language, wherever it stands in such text |
| MarkdownConversion.LinkConverts | src/telegram/markdown.rs:117-150 | a link whose text is free of markup keeps its text and its target, wherever it stands in such text |
| MarkdownConversion.HeadingConverts | src/telegram/markdown.rs:367-396 | a heading of any level, free of markup and on a line of its own, becomes bold |
| MarkdownConversion.UnclosedFenceConverts | src/telegram/markdown.rs:229-244 | a fence that is never closed opens no block |
| TelegramSplit.FindSplitPoint | src/telegram/bot.rs:1115-1146 | the two backward searches find the specified split point |
| TelegramSplit.BreaksAtLastChance | src/telegram/bot.rs:1115-1146 | a long text is cut after the last newline of the final third, else after the last space of the final fifth, else at 4000 |
| TelegramSplit.ChunksBreakWell | src/telegram/bot.rs:1085-1111 | every chunk but the last ends after a newline or a space, unless it is full and its final parts hold neither |
| TelegramSplit.SplitLongMessage | src/telegram/bot.rs:1085-1111 | the loop cuts at bytes as the code does, crashing where it does |
| TelegramSplit.ChunkBounds | src/telegram/bot.rs:1085-1111 | chunks have 1 to 4000 characters, all but the last at least 2668 |
| TelegramSplit.SplitBounds | src/telegram/bot.rs:1085-1111 | the same for the whole function, short texts included |
| TelegramSplit.ChunksLossless | src/telegram/bot.rs:1096-1108 | the chunks concatenate to the text iff the text before the last cut is ASCII |
| TelegramSplit.SplitLossless | src/telegram/bot.rs:1085-1111 | splitting neither crashes nor loses nor repeats anything iff the text before the last cut is ASCII |
| TelegramSplit.AccentsAreRepeated | src/telegram/bot.rs:1103-1107 | 4001 accented letters come out as 6001 |
| TelegramSplit.SendSplitMessage | src/telegram/service.rs:164-201 | the messages are sent in order up to the first failure |
| TelegramSplit.MessagesFit | src/telegram/service.rs:186-193 | every message, prefix included, has at most 4096 characters |
| TelegramSplit.MessagesCarryText | src/telegram/service.rs:178-198 | a long text reaches the user whole, prefixes aside, iff it is ASCII before its last cut |
| TelegramSplit.PrefixTellsPlace | src/telegram/service.rs:186-193 | a prefix determines the place of its message and how many there are |
| ZulipAddress.SortSorts | src/zulip/update/mod.rs:93 | sorting orders and keeps every participant |
| ZulipAddress.SortedUnique | src/zulip/update/mod.rs:93 | a list has one sorted arrangement |
| ZulipAddress.OthersAreTheRest | src/zulip/update/mod.rs:79-92 | everybody listed but the bot is a participant, the bot never is, and nobody else is |
| ZulipAddress.OthersPermuted | src/zulip/update/mod.rs:79-92 | filtering out the bot does not depend on the order of the recipients |
| ZulipAddress.ResolvePrivateAddress | src/zulip/update/mod.rs:78-96 | everybody but the bot, or the sender, sorted and joined: an id that does not depend on the order of the recipients, and that a reply splits into exactly these participants iff each email is nonempty, comma-free and trimmed |
| ZulipAddress.AddressIsCanonical | src/zulip/update/mod.rs:78-96 | any permutation of the recipients gives the same conversation id |
| ZulipAddress.SplitUndoesJoin | src/zulip/service.rs:55-61 | splitting the id gives the participants back iff each email is nonempty, comma-free and trimmed |
| ZulipAddress.SendReachesParticipants | src/zulip/service.rs:55-61 | a message goes to exactly the participants under that same condition |
| ZulipAddress.AddressesAreDistinct | src/zulip/update/mod.rs:93-94 | different groups of such participants never share an id |

## Left out

- HTTP, SQLite, the filesystem, processes, TLS, tracing, onboarding, typing indicators, attachments and access rules: only the append log, the summary table and the job rows remain, as abstract state.
- JSON: a JSON value is its serialised text; stored and loaded messages are equal, and a row that cannot be decoded (legacy formats included) is just undecodable.
- Message options (cache control and the like) and the separator between joined text parts: the first are omitted, the second is a parameter, as is the wording of the compaction instructions.
- Row and summary order: listing order is commit order and creation times of summaries strictly increase; ties of timestamps are not modelled.
- ContextBudget.AssembleMessages: assumes the reservations do not exceed the window, because `usable_input_budget` subtracts unchecked.
- Thresholds in floating point: whether a pressure check triggers compaction is left open, so every choice is covered.
- CompactionProtocol.NextKeepsInvariant: covers process restarts but not a panic inside a worker, which would leave its session marked running.
- McpSession.NextKeepsInvariant: the slot is modelled by step functions rather than a class, because what matters is every interleaving between two awaits; the transport behind a session is one set of unanswered requests.
- Scheduler.NextKeepsInvariant: likewise by step functions; cron expressions and aborted job runs are left out, the recalculation at start-up may store any row, and writers are assumed to notify after writing.
- Scheduler: that a job deleted or disabled while running stays so is not claimed; the final write replays the run time and flag captured before the run.
- ZulipPoll.DeliversQueueInOrder: events of an expired queue that were never fetched are gone with it on the server, so the claim is about the current queue.
- TelegramPoll.LongPoll.Poll: the request and the pause after an empty reply take no time; being cancelled in either is an action of its own.
- MarkdownParser.Parser.ParseNodes: which characters are alphanumeric is a parameter; whitespace is the Unicode White_Space set.
- MarkdownVisible.UserSeesTheInput: goes one way; for other inputs the outcome depends on how the parser groups the text, not on what stands around a backslash (`MarkdownLimits.BackslashBetween`: two backslashes between single asterisks fail, between double ones they do not), so no condition on the characters next to the backslashes is exact.
- MarkdownConversion.OneNodeBetween: several constructs in one text follow from MarkdownLiteral.RestStep; nested ones are covered by MarkdownVisible.UserSeesTheInput only.
- MarkdownVisible.VisibleNode: parsing the printed form back to the same tree is not claimed, since adjacent underscores are ambiguous there.
- TelegramSplit.SendSplitMessage: retrying as plain text when Telegram refuses the entities is left out.
- Zulip stream addresses, mention tests and numeric recipient ids: each is settled by reading one expression.
