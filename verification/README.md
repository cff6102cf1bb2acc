# AIYolo: models and proofs of its hard parts

AIYolo is a gateway to language models with a web console and a small server (`ass`) that runs inside a
user's workspace. This project models the parts of it whose correctness does not show from reading one
function, and proves what they promise: fan-out hubs under every interleaving, an incremental parser under
every way of cutting its input, routing and failover for every answer of the upstreams, money arithmetic,
and operations on file trees and listings.

`dafny verify dfyconfig.toml` checks everything.

## How the model is built

* **Interleavings.** `JobHub`, `RunHub`, `ShellRegistry`, `JobRegistry` and `ResponseCache` are transition
  systems with one step per critical section and one per action outside a lock. Goroutines, subscribers and
  callers are part of the state; a theorem quantifies over every sequence of enabled steps.
* **Objects.** What the code keeps in mutable objects are classes with the same fields (`JobSession`,
  `Registry`, `CloudAgentRun`, `ShellSession`, `StreamingParser`, `AgentParser`, `LimitedOutput`, `Workspace`,
  `UsageRecord`, `Cache`). Their methods have the code's loops and branches, and their contracts equate the
  new state with the same functions that the transition systems step with.
* **Loops.** `Forward`, `ResolveCandidates`, `RunWithContinuation`, `ParseStream`, `TreeEntries`,
  `ParseListDir` and their like are methods with the code's control flow, specified without it.
* **Environment.** The process's output, the upstreams' answers, file-system answers for path resolution, the
  clock, and what is read from one line of JSON are parameters: nothing is assumed of them but what a row
  below says.

| file | component |
|---|---|
| `Text`, `Integers`, `Options`, `Sorting` | byte strings, 64-bit integers, Go's sorting |
| `StreamParser` | the line-cutting parser of the console, for any decoding of a line |
| `AgentOutput`, `AgentParser` | what the lines of an agent's output do to that parser, with handlers and without |
| `Channels`, `JobHub`, `JobSession`, `JobRegistry` | background jobs: replay, subscribers, registry |
| `JobLife` | registry and hubs together: when attached handlers end |
| `AttachAnywhere` | job hub and parser together |
| `RunHub`, `RunSession` | cloud-agent runs: merge, broadcast, eviction |
| `ShellRegistry` | shared terminals |
| `WorkspaceTree`, `OutputBudget` | copy, rename, and the shared output limit |
| `CandidateRouting`, `Failover`, `ResponseCache` | the gateway |
| `Pricing`, `Usage`, `Continuation` | prices, billing, and answers over several turns |
| `AttachmentTree`, `ShellListing` | directory listings from keys and from a remote shell |

## What does not hold as one might expect

Each of these is proved, with the exact condition and where useful a concrete run.

* An agent's answer can depend on how its output is taken: some text is written only when there is a delta
  handler for it. All other fields agree; `AgentOutput.SameAnswerIff` says exactly when the answers do, and
  `AgentOutput.PartIsLostWithoutHandler` shows an output that answers "hi" when streamed and nothing when it
  is handed over whole.
* A handler that attaches to a job whose process then fails to start waits until its client goes away: the
  registry's entry is deleted, the channel never closed (`JobLife.AttachedHandlerEndsIff`,
  `JobLife.HandlerOfFailedJobHangs`).
* Given an error text with white space at its ends, `finish` tells it trimmed to readers that attach later and
  untrimmed to those attached before (`JobHub.LateReaderHearsTheSame`). Its only caller passes the texts of
  errors of Go's `Wait`, and whether any of these is such a text is not part of this model.
* A caller that is answered with an existing job can be given one whose process then fails to start: exactly
  if the job was only stored, not running, when the answer was given (`JobRegistry.JoinIsSafeIff`). A failed
  start also removes the finished job registered before it (`JobSessions.Registry.Start`).
* A subscriber of a cloud-agent run can miss white space (`RunHub.BlankTextCanBeMissed`) and can see the
  delta in flight twice (`RunHub.InFlightTextIsDoubled`); `RunHub.ScreenIsRight` says exactly when its screen
  is right.
* A request can end with every attempt failed and yet with a response: an upstream that redirects too often
  makes Go's client return an error and a response, and the loop does not clear it. `Failover.NoResponseIff`
  and `Failover.SuccessIff` say exactly when, `Failover.RedirectIsLeftOver` shows it.
* An empty write after the output budget is used up marks the output as truncated
  (`OutputBudget.TruncatedIff`).
* In an order with repeated names, named providers need not come before unnamed ones
  (`CandidateRouting.ListedComeFirstIff`); an order read by `parseStringList` has none. Sorting by price
  compares 64-bit sums, which can wrap around (`CandidateRouting.PriceOrderIff`).
* The price importer truncates negative numbers instead of rounding them (`Pricing.RoundIsHalfUpIff`,
  `Pricing.ImportIsHalfUpIff`).
* Deleting an expired response can delete a fresh one that was stored in between
  (`ResponseCache.FreshEntryCanBeLost`, `ResponseCache.ExpiryRemoves`).
* When upstreams report negative numbers, the total of an answer can differ from the sum of its turns'
  totals (`Continuation.NegativeTotalsVanish`); `Continuation.AnswerTotalIff` says exactly when.
* A listed directory whose path has white space at an end opens another one
  (`AttachmentTree.OpensRightIff`), and one named by a blank opens the directory it is in
  (`AttachmentTree.BlankDirectoryOpensItsParent`). Exploring from any start finds a key under it exactly if
  no directory between them has such a path (`AttachmentTree.FoundIffClean`, `AttachmentTree.FoundAsOftenIff`).
* A remote directory whose name has a newline or white space at an end is not listed as it is
  (`DirectoryListing.RecoversIff`).

## Model

| member | source | states |
|---|---|---|
| `StreamParser.FeedChunksIsLineByLine` | internal/console/chat_cloud_agent.go:243-261 | feeding chunks consumes, in order, the complete lines of the pending text and the chunks; without a failure what stays pending is the text after the last newline, after a failure nothing |
| `StreamParser.ChunkingIndependence` | internal/console/chat_cloud_agent.go:243-273 | state, callback log and error of a whole stream depend only on the concatenation of its chunks and are those of going through the text line by line, for failing handlers too |
| `StreamParser.SameTextSameResult` | internal/console/chat_cloud_agent.go:243-273 | two ways of cutting the same text cannot be told apart |
| `Text.SplitThenJoin` | internal/console/chat_cloud_agent.go:248 | splitting a text at its newlines loses nothing |
| `StreamParser.WholeAgreesWithStream` | internal/console/chat_cloud_agent.go:275-289 | with the same decoding, handing over the whole output at once, trimmed, gives what streaming it in any chunks gives |
| `AgentOutput.LinesPerform` | internal/console/chat_cloud_agent.go:291-470 | consuming lines does what the effects of their events say, one after the other, up to the first handler that fails |
| `AgentOutput.MemoryIsRecalled` | internal/console/chat_cloud_agent.go:291-470 | if no handler fails, every field but the text depends on the lines alone, not on which handlers there are |
| `AgentOutput.OutputIs` | internal/console/chat_cloud_agent.go:291-470 | the text is what is written anyway, preceded, if there is a delta handler and nothing was written before, by the text that only it gets |
| `AgentOutput.AnswerLine` | internal/console/chat_cloud_agent.go:323-359 | a line with answer text (deltas, block deltas, plain lines) writes and tells exactly that text; of the other fields it can only set the session |
| `AgentOutput.ThoughtLine` | internal/console/chat_cloud_agent.go:320-322 | a line with a piece of reasoning adds exactly that to the reasoning and tells it unless it is blank; the text and the final text stay and no delta is told |
| `AgentOutput.ThoughtNewsLine` | internal/console/chat_cloud_agent.go:330-337 | so does a complete reasoning item, which becomes the final reasoning |
| `AgentOutput.ThoughtItemLine` | internal/console/chat_cloud_agent.go:383-392 | so does one among the output items, the final reasoning if it is done and there is none |
| `AgentOutput.FinalLine` | internal/console/chat_cloud_agent.go:338-367 | a complete text becomes the final one and is written only for a handler and as the first text; the reasoning stays |
| `AgentOutput.PartLine` | internal/console/chat_cloud_agent.go:368-401 | a part of the content or an output item likewise, the final text only if it is done and there is none |
| `AgentOutput.TurnLine` | internal/console/chat_cloud_agent.go:348-350 | the end of a turn counts its usage and keeps a reason to finish |
| `AgentOutput.QuietLine` | internal/console/chat_cloud_agent.go:351-352 | what failures, stop reasons and session lines set, and that they write and tell nothing |
| `AgentOutput.ResultLine` | internal/console/chat_cloud_agent.go:439-451 | final text, reason to finish, duration and error of the closing line |
| `AgentOutput.EmptyLine` | internal/console/chat_cloud_agent.go:360-401 | a line without the text of its kind changes nothing but the session |
| `AgentOutput.AssistantLine` | internal/console/chat_cloud_agent.go:306-314 | the text blocks of a message go to the answer, its thoughts and tool steps to the reasoning, and its usage and stop reason count |
| `AgentOutput.UserLine` | internal/console/chat_cloud_agent.go:315-317 | of a user message only the results of tools count, for the reasoning |
| `AgentOutput.ResponseLine` | internal/console/chat_cloud_agent.go:402-409 | the output of a complete response adds to the final text, its reasoning to the final reasoning, and nothing to text and reasoning otherwise |
| `AgentOutput.LinesTexts` | internal/console/chat_cloud_agent.go:291-470 | over any lines the text written is that of the answers, the reasoning that of the thoughts, in order, and the final text what the lines make it |
| `AgentOutput.DeltasAreTheOutput` | internal/console/chat_cloud_agent.go:291-470 | with a delta handler the text written is the text it was given, in every state, handlers failing or not |
| `AgentOutput.WholeWithoutHandlers` | internal/console/chat_cloud_agent.go:243-289 | streaming in any chunks with any handlers that do not fail, and handing over the whole output without handlers: all fields but the text are the same, and the two texts differ by what only a delta handler gets |
| `AgentOutput.TextsOfOutput` | internal/console/chat_cloud_agent.go:243-289 | text, reasoning and final text of a whole stream, streamed and handed over whole, from the texts of its lines by their kind |
| `AgentOutput.SameAnswerIff` | internal/console/chat_cloud_agent.go:275-289 | the reasonings of the two are the same, and the answers exactly if the final text that the lines make is not blank, or there is no delta handler, or the first text of all is not one that only it gets, or is blank |
| `AgentOutput.PartIsLostWithoutHandler` | internal/console/chat_cloud_agent.go:368-382 | a line with a part of the content answers with it when streamed and with nothing when handed over whole |
| `AgentParsers.AgentParser.ConsumeLine` | internal/console/chat_cloud_agent.go:291-303 | the object decodes a line as the specification does, a line that is blank or not JSON changing nothing |
| `AgentParsers.AgentParser.ConsumeEvent` | internal/console/chat_cloud_agent.go:304-470 | the branches of each event, with their early returns, perform its effects |
| `AgentParsers.AgentParser.ConsumeBlocks` | internal/console/chat_cloud_agent.go:472-515 | the blocks of a message one after the other, up to the first error |
| `AgentParsers.AgentParser.EmitStep` | internal/console/chat_cloud_agent.go:543-565 | a tool's step is told as reasoning and, unless that fails, as an operation |
| `AgentParsers.AgentParser.ApplyResponse` | internal/console/chat_cloud_agent.go:667-701 | session, finish reason and usage, then the final texts, then the final reasonings, up to the first error |
| `AgentParsers.AgentParser.FillText` | internal/console/chat_cloud_agent.go:342-345 | text that is written only for a handler and only if there is none yet |
| `AgentParsers.AgentParser.AppendReasoning` | internal/console/chat_cloud_agent.go:902-911 | reasoning that is not blank is kept and told |
| `AgentOutput.FallbackIsIdle` | internal/console/chat_cloud_agent_stream.go:611-658 | when the parser of a resumed stream has no answer, the text given to its delta handler has none either |
| `StreamParser.StreamingParser.ConsumeChunk` | internal/console/chat_cloud_agent.go:243-261 | the loop over the newlines of a chunk updates pending text and state as the specification says |
| `StreamParser.StreamingParser.Finish` | internal/console/chat_cloud_agent.go:263-273 | the unterminated last line is consumed unless it is blank |
| `StreamParser.StreamingParser.Run` | internal/console/chat_cloud_agent.go:243-273 | the object driven chunk by chunk has the result of the specification |
| `Channels.Channel.TrySend` | internal/ass/jobs.go:338-344 | a send that never blocks: the event is queued if there is room, and only on an open channel |
| `Channels.Channel.Close` | internal/ass/jobs.go:312-320 | closing keeps what is queued; closing twice is excluded by the contract |
| `Channels.Channel.Receive` | internal/ass/jobs.go:423-443 | the oldest event, or the end of a closed channel |
| `JobHub.InvReachable` | internal/ass/jobs.go:247-388 | the invariant of the hub holds after every interleaving of appends, sends, subscriptions, departures and the end |
| `JobHub.ExactlyOnce` | internal/ass/jobs.go:323-379 | a reader still attached whose channel never overflowed has snapshot, received, queued and in-flight text equal to the output from the start of its snapshot |
| `JobHub.ExactlyOnceAt` | internal/ass/jobs.go:323-379 | the same for any state that satisfies the invariant |
| `JobHub.NoDuplicateNoReorder` | internal/ass/jobs.go:323-345 | also a reader that lost events got distinct deltas in order, all appended after it joined, and after them nothing but one final event |
| `JobHub.ReplayAndSafety` | internal/ass/jobs.go:295-345 | the replay is the last bytes of the output up to the limit, its size counter the whole size, and no interleaving sends to a closed channel or closes one twice |
| `JobHub.NeverStuck` | internal/ass/jobs.go:295-345 | an appender or finisher in the middle of its work always has a next step |
| `JobHub.FinisherProgress` | internal/ass/jobs.go:312-320 | every step of the finisher leaves it less to do |
| `JobHub.FinishedJobIsSealed` | internal/ass/jobs.go:367-379 | after the end no step adds a subscriber, output or a second end |
| `JobHub.AttachedStreamEnds` | internal/ass/jobs.go:390-444 | once the finisher is done an attached handler ends after at most the events in its queue |
| `JobHub.LateReaderHearsTheSame` | internal/ass/jobs.go:295-321 | a late reader is told what the others were told exactly when the process succeeded or the error text given to `finish` has no white space at its ends |
| `JobHub.LateReaderCanHearLess` | internal/ass/jobs.go:295-321 | `finish`, given an error text that ends with a newline, tells it differently |
| `JobSessions.JobSession.Subscribe` | internal/ass/jobs.go:367-379 | snapshot, fresh channel and new id, or id 0 and nothing registered for a finished job |
| `JobSessions.JobSession.Unsubscribe` | internal/ass/jobs.go:381-388 | exactly that subscriber goes; nothing is closed and no queue changes |
| `JobSessions.JobSession.Record` | internal/ass/jobs.go:323-337 | the locked part of appending: replay and size move on, the subscribers are captured |
| `JobSessions.JobSession.AppendDelta` | internal/ass/jobs.go:323-345 | one delta for the job, and one offer of it to every subscriber's channel |
| `JobSessions.JobSession.Seal` | internal/ass/jobs.go:295-311 | the locked part of finishing happens once |
| `JobSessions.JobSession.Finish` | internal/ass/jobs.go:295-321 | the outcome is recorded and every captured channel is offered the final event and closed; a second call does nothing |
| `JobSessions.JobSession.CopyLines` | internal/ass/jobs.go:247-261 | the loop over the pipe appends the output line by line and offers every line to every channel |
| `JobSessions.JobSession.CopyOutput` | internal/ass/jobs.go:247-265 | in the end the job has the whole output, with one more newline after a read error |
| `JobSessions.ReadLinesAreTheOutput` | internal/ass/jobs.go:247-265 | the deltas concatenate to the output |
| `JobSessions.ReadLinesAreLines` | internal/ass/jobs.go:247-265 | no delta is empty and all but the last end with their only newline |
| `JobSessions.AppendAllIsOneAppend` | internal/ass/jobs.go:323-337 | however an output is cut, the job ends in the same state |
| `JobSessions.OfferAllFits` | internal/ass/jobs.go:338-344 | a channel with room for all gets every delta in order |
| `JobSessions.DeltasAreTheOutput` | internal/ass/jobs.go:247-265 | with the extra newline after a read error the deltas still add up to the output |
| `JobSessions.DrainClosed` | internal/ass/jobs.go:423-443 | the handler's loop writes the queue up to and including the first final event and ends |
| `JobSessions.Registry.Active` | internal/ass/jobs.go:162-168 | the registered job unless it is done |
| `JobSessions.Registry.Start` | internal/ass/jobs.go:162-218 | an unfinished job is joined; a new one is stored; a start that fails leaves no entry |
| `JobRegistry.OneUnfinishedJobPerId` | internal/ass/jobs.go:162-218 | under all interleavings every unfinished job is the one registered under its id |
| `JobRegistry.DeleteRemovesOwnJob` | internal/ass/jobs.go:205-211 | the unconditional delete only removes the job its own call stored |
| `JobRegistry.StoringReplacesOnlyFinished` | internal/ass/jobs.go:197-205 | storing a job replaces at most a finished one |
| `JobRegistry.StartedIffCreated` | internal/ass/jobs.go:197-218 | a job has started exactly when the call that stored it was answered that it created it |
| `JobRegistry.JoinIsSafeIff` | internal/ass/jobs.go:162-218 | a job that a call is answered with is stored or running at that moment; if running, it has started in every continuation, if stored, some continuation has it never start |
| `JobRegistry.JoinedJobMayNeverRun` | internal/ass/jobs.go:162-218 | an interleaving in which a joined job never starts |
| `JobLife.InvRun` | internal/ass/jobs.go:162-218 | under all interleavings of calls, goroutines and handlers: a job that has not started has a hub in which nothing happened but attaching and leaving, and a started one is running exactly until its hub is finished |
| `JobLife.AttachedHandlerEndsIff` | internal/ass/jobs.go:205-214 | a handler attached to a job ends in some continuation exactly if the start of the job's process has not failed; if it has, its channel stays open and empty in every continuation |
| `JobLife.HandlerOfFailedJobHangs` | internal/ass/jobs.go:197-211 | a handler that attaches between storing and the failing start never ends |
| `AttachAnywhere.ResumeParsesText` | internal/console/chat_cloud_agent_stream.go:603-638 | resuming from a snapshot and a channel parses their text line by line |
| `AttachAnywhere.AttachAnywhereIsBatch` | internal/console/chat_cloud_agent_stream.go:603-638 | attaching at any moment of any interleaving, without overflow and with the output in the replay limit, ends in the parser state, callbacks and error of parsing the whole output at once |
| `AttachAnywhere.AttachedReaderEndsAsBatch` | internal/ass/jobs.go:390-444 | for a finished job such a reader gets there by reading to the end of its stream |
| `AttachAnywhere.LateReaderIsBatch` | internal/ass/jobs.go:367-444 | so does a reader that comes after the end |
| `RunHub.InvReachable` | internal/console/chat_cloud_agent_stream.go:143-373 | the invariant of the run hub holds after every interleaving |
| `RunHub.RegisteredIffOpen` | internal/console/chat_cloud_agent_stream.go:312-373 | a subscription is registered exactly while its channel is open, so nothing is closed twice or sent to after closing |
| `RunHub.RunIsItsUpdates` | internal/console/chat_cloud_agent_stream.go:143-214 | the run's text is the concatenation of all deltas, its reasoning that of all reasoning texts, and it has one operation for each id mentioned |
| `RunHub.OperationsShowTheLatest` | internal/console/chat_cloud_agent_stream.go:180-214 | each field of an operation is the last value that is not blank among all updates with its id |
| `RunHub.ContiguousRun` | internal/console/chat_cloud_agent_stream.go:362-373 | every subscriber, evicted or not, got one contiguous run of the updates from the first broadcast after it joined |
| `RunHub.SnapshotOverlapsByAtMostOne` | internal/console/chat_cloud_agent_stream.go:143-153 | the progress shown on joining covers all updates broadcast before and at most the one in flight |
| `RunHub.SnapshotShownIff` | internal/console/chat_cloud_agent_stream.go:333-344 | joining shows the progress exactly if there is text or reasoning that is not blank, or an operation, among the updates merged by then |
| `RunHub.ScreenIsRight` | internal/console/chat_cloud_agent_stream.go:312-360 | the exact conditions under which the text, and the reasoning, of all that a subscriber was shown and sent are those of the run |
| `RunHub.OnlyBlankTextIsMissed` | internal/console/chat_cloud_agent_stream.go:312-360 | what a subscriber misses is white space only |
| `RunHub.BlankTextCanBeMissed` | internal/console/chat_cloud_agent_stream.go:312-360 | an interleaving in which it misses some |
| `RunHub.InFlightTextIsDoubled` | internal/console/chat_cloud_agent_stream.go:143-153 | an interleaving in which a delta is shown twice |
| `RunHub.MergeOperationAt` | internal/console/chat_cloud_agent_stream.go:180-214 | merging changes exactly the first operation with that id, or appends |
| `RunHub.MergeKeepsIdsDistinct` | internal/console/chat_cloud_agent_stream.go:180-214 | merging keeps one entry per id |
| `RunHub.MergeTwiceIsOnce` | internal/console/chat_cloud_agent_stream.go:180-214 | merging the same operation twice in a row is merging it once |
| `RunHub.OperationsAreRight` | internal/console/chat_cloud_agent_stream.go:180-373 | the operations that any subscriber has from what it was shown and sent are those of all the updates it heard of, and those of the run if it was not evicted and nothing is in flight |
| `RunHub.OperationInFlightIsMissed` | internal/console/chat_cloud_agent_stream.go:166-178 | an operation that is merged and not yet broadcast is missing |
| `RunHub.AttachedHandlerEnds` | internal/console/chat_cloud_agent_stream.go:419-494 | after the final broadcast every attached handler ends |
| `RunHub.LateEventAgrees` | internal/console/chat_cloud_agent_stream.go:262-310 | a late subscriber gets a final event, the same as the others exactly if the run succeeded or its error is recorded |
| `RunSessions.CloudAgentRun.MergeStep` | internal/console/chat_cloud_agent_stream.go:180-214 | the search-and-overwrite loop does what merging means |
| `RunSessions.CloudAgentRun.OfferToAll` | internal/console/chat_cloud_agent_stream.go:365-372 | the loop offers the event to every channel and closes exactly those without room |
| `RunSessions.CloudAgentRun.Broadcast` | internal/console/chat_cloud_agent_stream.go:362-373 | every channel is offered the event; those with room stay registered and open, the others are closed and forgotten |
| `RunSessions.CloudAgentRun.MergeUpdate` | internal/console/chat_cloud_agent_stream.go:143-214 | a delta is appended to the text, a reasoning text to the reasoning, an operation is merged, and nothing else changes |
| `RunSessions.CloudAgentRun.Append` | internal/console/chat_cloud_agent_stream.go:143-178 | empty updates change nothing; others are appended or merged and broadcast, and channels without room are closed and forgotten |
| `RunSessions.CloudAgentRun.Subscribe` | internal/console/chat_cloud_agent_stream.go:312-360 | snapshot and fresh channel, or only a final event on a finished run |
| `RunSessions.CloudAgentRun.Unsubscribe` | internal/console/chat_cloud_agent_stream.go:352-359 | the channel is closed unless an eviction closed it |
| `RunSessions.CloudAgentRun.Complete` | internal/console/chat_cloud_agent_stream.go:262-310 | the outcome is set and the final event broadcast; subscribers without room for it are closed and forgotten, the others stay registered |
| `ShellRegistry.RegisteredSessions` | internal/console/chat_shell_registry.go:43-81 | a registered session is never done, and one that has not begun closing is the registered one of its key |
| `ShellRegistry.CallersGetTheirKey` | internal/console/chat_shell_registry.go:43-73 | a caller is answered with a session of its key |
| `ShellRegistry.CloseRemovesOnlyItself` | internal/console/chat_shell_registry.go:75-81 | a late close never removes a successor |
| `ShellRegistry.StoringNeverOverwrites` | internal/console/chat_shell_registry.go:62-69 | storing never overwrites an entry |
| `ShellRegistry.ShellsAreConserved` | internal/console/chat_shell_registry.go:43-181 | every opened shell belongs to exactly one stored session or one caller, or was closed by the losing caller, and is closed at most once |
| `ShellRegistry.NoShellLeaks` | internal/console/chat_shell_registry.go:43-73 | when all callers are back every shell has an owner or is closed |
| `ShellSessions.Registry.Active` | internal/console/chat_shell_registry.go:43-49 | the stored session unless it is done |
| `ShellSessions.Registry.StoreOrGet` | internal/console/chat_shell_registry.go:62-69 | the first live session of a key wins |
| `ShellSessions.Registry.Delete` | internal/console/chat_shell_registry.go:75-81 | only the entry that names this very session goes |
| `ShellSessions.Registry.Close` | internal/console/chat_shell_registry.go:153-181 | the first call closes the shell, unregisters and then marks done; later calls do nothing |
| `WorkspaceTree.InsideIsProperPrefix` | internal/ass/server.go:973-976 | the test on the relative path holds exactly for targets strictly below the source |
| `WorkspaceTree.CopyIsDetermined` | internal/ass/server.go:1024-1085 | two trees that are copies in the sense of the specification are the same |
| `WorkspaceTree.CopyIsTheCleanedSource` | internal/ass/server.go:1024-1085 | the target holds, at every depth, the directories and regular files of the source and no others; all other nodes are as before |
| `WorkspaceTree.CopyIsWellFormed` | internal/ass/server.go:1024-1059 | every node of the result lies in a directory |
| `WorkspaceTree.CopyOfCopy` | internal/ass/server.go:1024-1059 | copying a copy loses nothing more |
| `WorkspaceTree.Workspace.CopyDirectory` | internal/ass/server.go:1024-1059 | the recursion over the children ends and makes the copy, because the target stays outside of what it reads |
| `WorkspaceTree.Workspace.CopyChild` | internal/ass/server.go:1036-1057 | symlinks and special nodes are skipped, files and directories copied |
| `WorkspaceTree.Workspace.CopyPath` | internal/ass/server.go:952-989 | success exactly if the names differ, both lie in directories, the source is a regular file or a directory that the target is not in, and the target is free; which check each refusal comes from; a refusal changes nothing, success is a complete copy |
| `WorkspaceTree.Workspace.RenamePath` | internal/ass/server.go:909-950 | the same for a rename, which takes every kind of node and does nothing for equal names |
| `WorkspaceTree.MoveIsTheSubtree` | internal/ass/server.go:909-950 | what was at and below the source is at and below the target, nothing is left there, all else is as before |
| `WorkspaceTree.RenameBack` | internal/ass/server.go:909-950 | renaming there and back restores the tree |
| `WorkspaceTree.MoveKeepsWellFormed` | internal/ass/server.go:909-950 | with the check against moving into itself every node still lies in a directory |
| `OutputBudget.BudgetKeepsTheFirstBytes` | internal/ass/server.go:1350-1403 | for every interleaving of writes the buffers hold exactly the first bytes up to the limit, each in its own stream, and kept plus remaining is constant |
| `OutputBudget.BuffersArePrefixes` | internal/ass/server.go:1378-1397 | each buffer is a prefix of what was written to its stream |
| `OutputBudget.TruncatedIff` | internal/ass/server.go:1378-1397 | the flag is set exactly when more was written than fits or an empty write found no budget |
| `OutputBudget.LimitedOutput.constructor` | internal/ass/server.go:1363-1368 | the budget is the limit given, or the default for a limit that is not positive |
| `OutputBudget.LimitedOutput.WriteTo` | internal/ass/server.go:1378-1397 | one write moves the object as specified and reports all bytes as written |
| `Failover.Forward` | internal/gateway/handlers.go:369-436 | the search ends at the first candidate whose answer is final, or at the last; selection, attempts, open bodies and the response, a left over one included, follow from that |
| `Failover.TheEndIsUnique` | internal/gateway/handlers.go:369-436 | there is only one such candidate |
| `Failover.AttemptsTellTheStory` | internal/gateway/handlers.go:369-436 | attempts are numbered from one in candidate order; only the last can be a success, and is one exactly if its candidate answered below 400; each earlier one failed on the network, in conversion or with a retryable status |
| `Failover.ResponseIsTheAnswer` | internal/gateway/handlers.go:408-425 | the response is the upstream's answer or, for a 404 or 405 on the responses endpoint, that of the chat fallback if there is one |
| `Failover.AttemptIsRecorded` | internal/gateway/handlers.go:374-435 | each attempt has the status that counts and its failure class, and is a success exactly if the search ended there below 400 |
| `Failover.PassedOverIff` | internal/gateway/handlers.go:374-431 | a candidate is passed over exactly if there is another and it has no client, a network error, a failed conversion, or a status of 408, 429, 502, 503 or 504 that counts |
| `Failover.GivenUpIff` | internal/gateway/handlers.go:386-398 | the search is given up exactly at a request that cannot be rewritten or built |
| `Failover.NoResponseIff` | internal/gateway/handlers.go:369-438 | no response exactly if the last tried gave none: that holds exactly if no error left a response behind |
| `Failover.SuccessIff` | internal/gateway/handlers.go:399-435 | success exactly if there is a response below 400: that holds exactly if no such response was left behind |
| `Failover.RedirectIsLeftOver` | internal/gateway/handlers.go:399-407 | an upstream that redirects too often leaves one |
| `Failover.BuildMetadata` | internal/gateway/handlers.go:1518-1547 | the endpoints and the number of the last successful attempt, or the count |
| `Failover.AttemptNumberIsCount` | internal/gateway/handlers.go:1535-1546 | for recorded attempts that number is how many there are |
| `Failover.ForwardAndDescribe` | internal/gateway/handlers.go:369-437 | whatever the upstreams answer, the metadata's attempt is the number of attempts and marks the last one tried; when success means a response below 400 |
| `CandidateRouting.ResolveCandidates` | internal/gateway/handlers.go:922-977 | the answer is exactly the acceptable candidates in the intended order, or the error of the first model, or that no route matches |
| `CandidateRouting.AnswerIsUnique` | internal/gateway/handlers.go:922-977 | at most one list meets that description |
| `CandidateRouting.AnswerMeetsPreferences` | internal/gateway/handlers.go:922-1035 | which routes an answer has, preference by preference: allowed, ignored and listed providers, parameters, and the price limit of the prompt for input and of the completion for output |
| `CandidateRouting.AnswerIsSorted` | internal/gateway/handlers.go:1037-1109 | in which order: by the last mention of the provider, then cheapest, lowest priority number or greatest weight first, then by model |
| `CandidateRouting.CollectCandidates` | internal/gateway/handlers.go:922-944 | only the first lookup can fail the request; the others are skipped |
| `CandidateRouting.ApplyPreferences` | internal/gateway/handlers.go:945-976 | the chain of filters keeps exactly the candidates that satisfy every preference |
| `CandidateRouting.FilterCandidates` | internal/gateway/handlers.go:999-1007 | what satisfies the condition stays, in order |
| `CandidateRouting.SliceToSet` | internal/gateway/handlers.go:991-997 | the set of the trimmed names |
| `CandidateRouting.BuildProviderOrder` | internal/gateway/handlers.go:1051-1054 | every trimmed name with its last position |
| `CandidateRouting.SortCandidates` | internal/gateway/handlers.go:1037-1089 | the listed candidates, if no fallbacks are allowed, in the order of provider rank, sort key, position |
| `CandidateRouting.ComparatorIsOrder` | internal/gateway/handlers.go:1055-1109 | between different models the seven criteria are that order; the last four never matter |
| `CandidateRouting.ComparatorIsTotal` | internal/gateway/handlers.go:1055-1109 | it is a strict total order on the candidates of a request |
| `CandidateRouting.SortedIsInOrder` | internal/gateway/handlers.go:1055-1089 | sorting by it gives the intended order and keeps the candidates |
| `CandidateRouting.ListedComeFirstIff` | internal/gateway/handlers.go:1051-1069 | named providers precede all unnamed ones exactly if no name is repeated |
| `CandidateRouting.PriceOrderIff` | internal/gateway/handlers.go:1091-1098 | for all 64-bit prices, the comparison is right exactly if both sums wrap around alike or lie further apart than the wrap; without negative prices, exactly if both overflow or neither does |
| `CandidateRouting.ParseStringList` | internal/gateway/handlers.go:841-867 | the distinct non-blank trimmed names by first occurrence, or an error exactly for what is not a list of strings |
| `Sorting.SortedIsUnique` | internal/gateway/handlers.go:1055-1089 | under a total order a list has one sorted arrangement, so algorithm and stability do not matter |
| `Sorting.StringLessIff` | internal/console/chat_workspace.go:976 | a string is less than another exactly if it ends, or has the smaller byte, where they first differ |
| `Sorting.SortStringsOrders` | internal/console/chat_workspace.go:976 | so no greater name precedes a smaller one |
| `Sorting.SortStringsSorts` | internal/console/chat_workspace.go:976 | sorted by byte order, with the same elements |
| `ResponseCache.KeysSeparateRequests` | internal/gateway/handlers.go:1340-1343 | two requests share a key exactly if API key, endpoint, stream flag and body agree, colons in ids and models included |
| `ResponseCache.FieldsAloneCollide` | internal/gateway/handlers.go:1340-1343 | without the body the key would not separate them |
| `ResponseCache.HitIsLatestStore` | internal/gateway/handlers.go:1345-1393 | under all interleavings a load is a hit exactly if the latest store under the key was not removed since and is within its time; it returns that store |
| `ResponseCache.ExpiryRemoves` | internal/gateway/handlers.go:1345-1355 | the second half of an expired load removes another entry than it saw exactly if the key was stored again in between |
| `ResponseCache.FreshEntryCanBeLost` | internal/gateway/handlers.go:1345-1355 | an interleaving in which a fresh entry is lost |
| `ResponseCache.Cache.Read` | internal/gateway/handlers.go:1345-1355 | what a load finds under the lock |
| `ResponseCache.Cache.Load` | internal/gateway/handlers.go:1345-1369 | a hit is unexpired; an expired entry is taken out |
| `ResponseCache.Cache.Store` | internal/gateway/handlers.go:1371-1387 | the entry replaces what was there |
| `ResponseCache.Cache.Delete` | internal/gateway/handlers.go:1389-1393 | the key is gone, the others are as before |
| `Pricing.RoundIsHalfUpIff` | internal/console/openrouter.go:337-346 | the rounding is half up exactly for numbers that are not negative or whose cut-off part is at most one half |
| `Pricing.HalfUpOfNumber` | internal/console/openrouter.go:337-342 | rounding depends on the number, not on the fraction that represents it |
| `Pricing.RateUsed` | internal/console/openrouter.go:349-359 | a positive rate that can be read is used as it is, up to white space, and otherwise 8 |
| `Pricing.RateIsPositive` | internal/console/openrouter.go:349-359 | the normalized exchange rate can be read and is positive |
| `Pricing.ImportIsHalfUp` | internal/console/openrouter.go:324-347 | a price that is not negative is imported as price times rate rounded half up, or as 0 when that does not fit |
| `Pricing.ImportIsHalfUpIff` | internal/console/openrouter.go:324-347 | any price that fits is imported rounded half up exactly if the product is not negative or at most one half is cut off |
| `Pricing.PriceIsPrintedExactly` | internal/gateway/handlers.go:1702-1714 | fifteen places print a price without rounding |
| `Pricing.PriceStringIsDecimal` | internal/gateway/handlers.go:1702-1714 | a printed price is a plain decimal equal to the price |
| `Pricing.PrintThenImport` | internal/gateway/handlers.go:1702-1714 | printing and importing at rate 1 gives a 64-bit price back exactly if it is not negative |
| `Pricing.ImportOfPrinted` | internal/console/openrouter.go:324-347 | at any other rate it gives the price times the rate, rounded half up |
| `Pricing.PriceStringIsInjective` | internal/gateway/handlers.go:1702-1714 | prices that print alike are alike |
| `Pricing.ReadDecimalReadsDecimals` | internal/console/openrouter.go:329 | a reader as the importer needs it exists |
| `Usage.UsageRecord.MergeUsage` | internal/console/chat_stream.go:1347-1368 | the record moves as the specification says, field by field |
| `Usage.UsageRecord.AddTotals` | internal/console/chat_stream.go:716-733 | every count is added |
| `Usage.UsageRecord.FillTotal` | internal/console/chat_stream.go:745-747 | a total of zero is derived from the counts |
| `Usage.MergedCounts` | internal/console/chat_stream.go:1347-1368 | over a stream every count is the last positive one reported and the total their sum, a reported total counting only without counts |
| `Usage.AccumulatedCounts` | internal/console/chat_stream.go:716-755 | over any turns the counts are the sums |
| `Usage.RunningTotalsIff` | internal/console/chat_stream.go:716-755 | after every turn the total is the sum of the totals exactly if these sums never vanish while there are counts |
| `Usage.FinalTotalIff` | internal/console/chat_stream.go:716-755 | the total in the end is the sum of the totals exactly if it was so when it was last derived from the counts |
| `Usage.NaturalTotals` | internal/console/chat_stream.go:716-755 | without negative numbers these sums never vanish while there are counts, if every turn that used tokens has a total |
| `Usage.CostIsRounded` | internal/console/models_support.go:267-272 | a cost is price times tokens per million, rounded to the nearest unit |
| `Usage.BillingTheSum` | internal/console/models_support.go:267-272 | billing the sum of k token counts differs from billing each by at most k/2 |
| `Usage.BillingTheSumIsTight` | internal/console/models_support.go:267-272 | the bound is reached |
| `Usage.BillingTheTurns` | internal/console/models_support.go:260-272 | over all four price components the bills differ by at most 2k |
| `ChatStream.ParseStream` | internal/console/chat_stream.go:1101-1194 | where reading stops, what the callbacks got, when it is an error, and the output, reasoning, finish reason and usage that result |
| `ChatStream.ReadingIs` | internal/console/chat_stream.go:1101-1194 | a stream fails exactly if a line cannot be decoded, the client refuses a text, it breaks off, or no line says that the model is done; otherwise output and reasoning are those of all lines, trimmed |
| `ChatStream.TakeChunk` | internal/console/chat_stream.go:1114-1161 | one line gathers what it carries until the client refuses something |
| `Continuation.RunWithContinuation` | internal/console/chat_stream.go:595-668 | at most three turns; each request extends the history by the last prompt and answer; a turn goes on only for a length finish reason; output, reasoning, finish reason, usage and error of the whole |
| `Continuation.RunTurns` | internal/console/chat_stream.go:612-668 | the loop over the turns: its requests are the conversation, and what it has combined is what the turns amount to |
| `Continuation.ConversationIsUnique` | internal/console/chat_stream.go:612-668 | the answers of the upstream determine the requests |
| `Continuation.WhatIsAskedNext` | internal/console/chat_stream.go:662-667 | each further request asks to continue, with the history of the one before, its prompt and attachments as the user's message and the text that answered it as the assistant's |
| `Continuation.HistoryIsTranscript` | internal/console/chat_stream.go:595-668 | so it carries the first history and the question and answer of every turn before it |
| `Continuation.GoesOnIff` | internal/console/chat_stream.go:652-660 | a turn is followed by another exactly if it did not fail, makes no images, stopped for length and is not the third |
| `Continuation.AnswerIs` | internal/console/chat_stream.go:629-651 | the answer is the trimmed text of all turns, or the placeholder if that is blank, with the last finish reason |
| `Continuation.ReasoningIs` | internal/console/chat_stream.go:632-646 | its reasoning has a paragraph for each turn whose reasoning is not blank |
| `Continuation.FollowUp` | internal/console/chat_stream.go:662-667 | the next request: the history with the last prompt, its attachments and its answer, and the prompt to continue |
| `Continuation.CollectTurn` | internal/console/chat_stream.go:635-651 | one turn is added to text, reasoning, finish reason and usage |
| `Continuation.TurnsGiveTotals` | internal/console/chat_stream.go:1020-1194 | a turn that used tokens has a total, whether it was streamed, came in one piece or failed before |
| `Continuation.StreamedUsage` | internal/console/chat_stream.go:1101-1194 | a streamed turn reports nothing negative |
| `Continuation.AggregateCounts` | internal/console/chat_stream.go:716-755 | the counts of an answer are the sums over its turns, and so is its total unless a turn reports negative numbers |
| `Continuation.AnswerTotalIff` | internal/console/chat_stream.go:716-755 | for the at most three turns of an answer, exactly when its total is the sum of theirs |
| `Continuation.NegativeTotalsVanish` | internal/console/chat_stream.go:1299-1345 | with negative numbers the total can differ |
| `Continuation.AnswerIsBilledFairly` | internal/console/models_support.go:260-272 | an answer over at most three turns is billed within six micro-cents of its turns |
| `Continuation.AnswerIsWhatWasStreamed` | internal/console/chat_stream.go:612-668 | when every turn streams, the output is the trimmed concatenation of all deltas the client got |
| `AttachmentTree.TreeEntries` | internal/console/chat_attachment_tree.go:160-238 | one entry per directory with something in it, then one file per occurrence of a key, both sorted |
| `AttachmentTree.ListingIsDetermined` | internal/console/chat_attachment_tree.go:160-238 | two listings differ at most in the order of files with the same key |
| `AttachmentTree.DirectoryIsListedIff` | internal/console/chat_attachment_tree.go:189-203 | a directory is listed exactly for a name that some key goes on after, under the path that leads there |
| `AttachmentTree.FileIsListedIff` | internal/console/chat_attachment_tree.go:204-216 | a file is listed exactly for a key directly in the directory, under its last name and whole path with its entry's data |
| `AttachmentTree.ListingIsOrdered` | internal/console/chat_attachment_tree.go:218-237 | by name without regard to case, and then by path |
| `AttachmentTree.AddEntry` | internal/console/chat_attachment_tree.go:168-216 | one catalog entry becomes a file, a directory or nothing |
| `AttachmentTree.PrefixIsBelow` | internal/console/chat_attachment_tree.go:173-179 | the test on text prefixes is the relation between components |
| `AttachmentTree.KeyHasNames` | internal/artifacts/config.go:136-143 | a normalized key has no empty, dot or slash components |
| `AttachmentTree.DotsResolve` | internal/artifacts/config.go:136-143 | empty and dot components change nothing, a double dot takes the name before it away, and nothing at the root |
| `AttachmentTree.OpenIsRight` | internal/artifacts/config.go:136-143 | normalizing a key again gives it back exactly if it has no white space at its ends |
| `AttachmentTree.OpensRightIff` | internal/console/chat_attachment_tree.go:183-203 | all directories below a base open themselves exactly if their paths have no white space at their ends |
| `AttachmentTree.BlankDirectoryOpensItsParent` | internal/console/chat_attachment_tree.go:183-203 | a directory named by a blank opens the one it is in |
| `AttachmentTree.OpenKeeps` | internal/artifacts/config.go:136-143 | wherever opening a listed directory leads, a base below the start is reached along clean paths only |
| `AttachmentTree.Explore` | internal/console/chat_attachment_tree.go:160-238 | what opening directory after directory finds, to any depth, from any start and in any catalog: if all directories open themselves, every key under the start exactly as often as it occurs; in any case, of the keys under the start, all those whose way from there is clean and no others |
| `AttachmentTree.FoundIffClean` | internal/console/chat_attachment_tree.go:160-238 | a key under the start is found exactly if no directory between the start and it has a path with white space at its ends |
| `AttachmentTree.FoundAsOftenIff` | internal/console/chat_attachment_tree.go:160-238 | each key is found exactly as often as it occurs exactly if that is so for all keys under the start |
| `AttachmentTree.FilterCatalog` | internal/console/chat_attachment_tree.go:144-158 | the entries within the prefix stay |
| `AttachmentTree.FilterKeepsListings` | internal/console/chat_attachment_tree.go:144-158 | filtering to a scope changes no listing in the scope and leaves nothing outside it |
| `ShellWords.QuotedIsOneWord` | internal/console/chat_workspace.go:1140-1142 | by sections 2.2 and 2.3 of the POSIX Shell Command Language a quoted text is one word equal to the text |
| `ShellWords.ScriptAssignsPath` | internal/console/chat_workspace.go:929-945 | the script assigns exactly the path |
| `DirectoryListing.ParseListDir` | internal/console/chat_workspace.go:947-978 | success exactly with a path line and no error line; the last path and the sorted names |
| `DirectoryListing.TakeLine` | internal/console/chat_workspace.go:951-972 | what one line says |
| `DirectoryListing.ReadTagged` | internal/console/chat_workspace.go:951-972 | what a line with a given tag says, an error line included |
| `DirectoryListing.RecoversIff` | internal/console/chat_workspace.go:929-978 | the path and the sorted names come back exactly if each is one line without white space at its ends |

## Left out

* JSON: what is read from a line of an agent's output, by the text helpers too, is a parameter; details,
  categories and addresses of operations. `AttachAnywhere` holds for any decoding of a line.
* Invalid UTF-8, white space outside ASCII, case folding outside ASCII.
* I/O errors in the middle of a copy, ownership, modes, umask, and the content of symlinks; path resolution
  through symlinks is a parameter of `CopyPath` and `RenamePath`.
* The on-disk job log, persistence of runs, quotas and settlement, request logs, HTTP, websockets, SSH, PTY.
* `captureBrowserOperationScreenshot`, which broadcasts with its lock held.
* Reconnection of a resumed job stream: one attachment is modelled.
* Sends of the shell hubs after their unlock, which can meet a closed channel; only the registry is modelled.
* The exact algorithm of Go's `sort`: an insertion sort stands for it, with proofs that the results do not
  depend on the algorithm, up to the order of files with equal keys.
* In the transition systems a channel is known by the id of its subscription, and the order in which Go
  ranges over a map is arbitrary; the classes have real channel objects.
* `big.Rat` syntax beyond plain decimals: the reader is a parameter that may read more.
* Rounding of floating-point numbers in price limits, which are real numbers here.
* Wrap-around of token counts in usage records; that of prices and costs is modelled.
* Response headers, time stamps and byte copies of cached entries; router metadata in cached bodies.
* Latency, provider and model names, and status codes of an aggregated answer.
* `StreamParser.WholeAgreesWithStream`: has the same decoding on both sides, because the decodings with and without
  handlers differ; `AgentOutput.WholeWithoutHandlers` compares those.
* `Failover.Forward`: does not model the contents of requests and responses, because they do not steer the loop.
* `JobSessions.Registry.Start`: states one call with nobody in between, because `JobRegistry` has the interleavings.
* `RunSessions.CloudAgentRun.Append`: states one call with nobody in between, because `RunHub` has the interleavings.
