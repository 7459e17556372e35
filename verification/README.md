# Verified model of the agent runtime

This project models the stateful core of the agent runtime in Dafny and proves properties of it:
the splitter that cuts a model's token stream into thinking and visible text, the scheduler that
runs nested specs, the thinking summarizer, the managed Nu runtime's segment splitter and state
lists, the OSC 133 parser and stripper, the editor's bracket matching and text insertion, word
wrapping of styled lines, the Python chunker, the shared shell session with its policy rotation
and replay journal, the event-stream subscribers, and table layout.

Each part follows one pattern.  A state machine is given as a datatype of its state and functions
for its steps; a class or a method in the source's own form (fields updated in place, loops) is
proved to move exactly as those functions; and lemmas state what holds over every input, every
run or every interleaving.  What the program gets from outside (model replies, task outcomes,
shell evaluation, spawned sessions, command batches, the order in which jobs answer) is a
parameter, so every theorem holds for all of it.

- `Text.dfy`: whitespace, trimming, substring search, UTF-8 length
- `ThinkingStream.dfy`: the content-delta machine and the end-of-stream flush
- `Specs.dfy`, `Orchestrator.dfy`: specs, commands, events; the explicit-stack scheduler
- `OrchestratorOrder.dfy`, `OrchestratorHalting.dfy`: the scheduler against a recursive traversal; halting
- `OrchestratorTrace.dfy`: the discipline of the event stream
- `OrchestratorSettling.dfy`, `OrchestratorControl.dfy`: what an outcome does, case by case; what the
  control commands achieve
- `OrchestratorTurns.dfy`, `OrchestratorFrames.dfy`, `OrchestratorPrefixes.dfy`: what a turn does to the
  frames; reachable frames, conservation and resuming; prefixes
- `Summarizer.dfy`: jobs, channel and pending counter
- `NuSegments.dfy`, `NuTokens.dfy`: segment splitter; where a line is cut, in tokens
- `NuRuntime.dfy`, `NuJournal.dfy`: registries, journal, snapshot and restore; what a session leaves behind
- `Osc133.dfy`: parser, stripper and their agreement
- `Brackets.dfy`, `EditBuffer.dfy`: bracket matching; text insertion
- `Wrapping.dfy`, `Table.dfy`: span slicing and wrapping; table layout
- `Chunker.dfy`: sibling grouping into chunks
- `ShellSession.dfy`, `ShellCalls.dfy`: session rotation and journal; one request and one command, case by case
- `Subscribers.dfy`: subscriber tables

`dafny verify dfyconfig.toml` checks everything.

## What the code does that its users might not expect

- A close tag of thirteen or more characters can be missed: what is found then depends on where
  the chunks fall (`ThinkingStream.ChunkIndependence` gives the exact condition).
- A cancelled step is announced with its own prefix, but a resume is compared with the prefix of
  its spec, so answering the announcement does nothing except for a root step with an empty index
  (`OrchestratorFrames.AnnouncedPrefixResumes`).
- The scheduler reports completion once its stack is empty, even while a cancelled frame waits to
  be resumed: a cancelled frame can come back if and only if another frame lies below it
  (`OrchestratorFrames.CancelledComesBack`), and when it does, the frame below runs its next step
  first (`OrchestratorFrames.CancelThenResume`).  A second cancellation overwrites the first one's
  frame (`OrchestratorFrames.SuspendConserves`).
- `insert_str` compares a character's index with the length in bytes, so the cursor stays on the
  last inserted character only for ASCII texts (`EditBuffer.InsertStrCursor`).
- A cursor beyond the end of its row inserts before the row's last character, and appending at the
  end of a row does so too (`EditBuffer.InsertCharRefines`, `EditBuffer.AppendStrRefines`).
- Of several comments in a row the chunker keeps only the last, and the same goes for docstrings
  (`Chunker.TriviaKept`).
- While a background process is recorded every session request spawns a new session
  (`ShellSession.RequestsSettle`).
- With several callers the recorded session may not have run the whole journal: when a sync falls
  after the caller's session was replaced, or between the moment a request clones the journal and
  the session it spawns, or journals commands in another order than they ran
  (`ShellSession.MemoryIsGuarded` gives the exact condition, `ShellSession.InterleavingForgets` one
  run).
- A root step with an empty name, which validation excludes but the scheduler accepts, leaves its
  child with the root's own prefix (`OrchestratorPrefixes.PrefixesExtendIff`).

## Model

| member | source | states |
|---|---|---|
| `ThinkingStream.StreamMeetsSplit` | crates/agent_core/src/agent.rs:188-478 | for any cutting of the stream and a close tag of at most 12 characters, the thinking text and the visible text are those of a one-shot split; the reply is the visible text and the summarizer gets exactly the thinking text |
| `ThinkingStream.ChunkIndependence` | crates/agent_core/src/agent.rs:239-443 | the outcome is independent of the chunking if and only if the close tag has at most 12 characters or the open tag begins with whitespace and so is never recognised |
| `ThinkingStream.HoldBackFinds` | crates/agent_core/src/agent.rs:349-441 | with eleven characters held back, searching the kept tail finds the close tag exactly where searching everything would |
| `ThinkingStream.LongCloseTagDiffers` | crates/agent_core/src/agent.rs:349-350 | for every close tag of 13 or more characters (and an open tag that can open) there are two cuttings of one stream with different outcomes |
| `ThinkingStream.SinglesNeverClose` | crates/agent_core/src/agent.rs:349-441 | fed one character at a time, such a close tag is never seen and all text is thinking |
| `ThinkingStream.DecisionStable` | crates/agent_core/src/thinking_helpers.rs:9-35 | once the start of the stream is decided, more text never changes the decision |
| `ThinkingStream.FinishMeetsSplit` | crates/agent_core/src/agent.rs:612-646 | the flush at the end turns an undecided prefix into visible text and held-back text into thinking |
| `ThinkingStream.ThinkingComesFirst` | crates/agent_core/src/agent.rs:255-340 | for any tags and any chunks, no thinking message follows a response, and while the close tag is awaited all but eleven characters have been sent |
| `ThinkingStream.PiecesAreFull` | crates/agent_core/src/agent.rs:356-420 | the pieces of the emission loop are never empty, all but the last have exactly a hundred characters, and the last at most a hundred |
| `ThinkingStream.ContentStream.SendThinking` | crates/agent_core/src/agent.rs:356-420 | the emission loop sends the text in pieces of at most a hundred characters and loses none |
| `ThinkingStream.ContentStream.ProcessThinking` | crates/agent_core/src/agent.rs:239-443 | one chunk inside the tags: close tag found, or all but eleven characters sent |
| `ThinkingStream.ContentStream.ProcessVisible` | crates/agent_core/src/agent.rs:444-477 | one chunk outside the tags: whitespace is held until something visible comes |
| `ThinkingStream.ContentStream.ContentDelta` | crates/agent_core/src/agent.rs:188-478 | one delta moves the object as the specification step |
| `ThinkingStream.ContentStream.EndOfStream` | crates/agent_core/src/agent.rs:612-646 | the final flush moves the object as the specification |
| `ThinkingStream.RunGeneration` | crates/agent_core/src/agent.rs:188-478 | a whole generation over any chunks returns the one-shot split and the reply |
| `Specs.AppendHistory` | crates/agent_core/src/orchestrator.rs:1201-1230 | a missing history becomes one entry, a list grows by one, a lone value is kept as first entry |
| `OrchestratorSettling.CancelledWaits` | crates/agent_core/src/orchestrator.rs:649-660 | a cancelled task pushes nothing: its frame waits at the same step, pending, and the run pauses |
| `OrchestratorSettling.SplitRunsChild` | crates/agent_core/src/orchestrator.rs:661-680 | a split leaves the same step below, pending, with the child recorded, and the child runs from its first step |
| `OrchestratorSettling.FailureMovesOn` | crates/agent_core/src/orchestrator.rs:681-701 | a failed task is announced and the next step is up |
| `OrchestratorSettling.NoSummaryStops` | crates/agent_core/src/orchestrator.rs:702-703 | a task without a summary ends the run with an error |
| `OrchestratorSettling.RevisionRepeats` | crates/agent_core/src/orchestrator.rs:733-790 | a failed summarizer or a verdict asking for revision puts the same step back, pending, after the rejected summary |
| `OrchestratorSettling.RejectionAbandons` | crates/agent_core/src/orchestrator.rs:828-848 | a rejecting verdict is announced and pushes nothing of this spec any more |
| `OrchestratorSettling.SuccessMovesOn` | crates/agent_core/src/orchestrator.rs:791-827 | a verified step, or one that needs no verdict, closes its channel and is completed with its summary in the history; its child runs first, then the next step if there is one |
| `OrchestratorControl.PauseHolds` | crates/agent_core/src/orchestrator.rs:546-554 | once a pause is read and until something releases it, the loop reads every batch, starts no step and uses no outcome |
| `OrchestratorControl.ResumeReleases` | crates/agent_core/src/orchestrator.rs:546-554 | a resume, however many empty polls later, lets the frame in hand go on as if the loop had never waited |
| `OrchestratorControl.CancellationIsNamed` | crates/agent_core/src/orchestrator.rs:600-660 | of the cancellations read before and during a step the last one counts: the step is set aside if and only if it is named or its task came back cancelled, and it is not executed if it was named before; a cancellation that hit is used up |
| `OrchestratorControl.InjectedOnTop` | crates/agent_core/src/orchestrator.rs:490-506 | an injected spec is put on top of what lies below the frame in hand, named under it, and stays below whatever else the turn pushes |
| `OrchestratorControl.ResumeCarriesNote` | crates/agent_core/src/orchestrator.rs:516-532 | the message of a matching resume-step is added to the waiting step, unless blank, and nothing else of the frame changes but its status |
| `OrchestratorControl.RerunReports` | crates/agent_core/src/orchestrator.rs:1125-1178 | rerunning the verifier reports its answer about the task verified last and changes nothing |
| `Orchestrator.ExecuteUses` | crates/agent_core/src/orchestrator.rs:571-659 | every executed step uses up an outcome or leaves the stack as it is |
| `Orchestrator.TurnUses` | crates/agent_core/src/orchestrator.rs:558-659 | every turn of the loop shrinks what is still to come or the stack, so the loop is well-founded |
| `Orchestrator.Scheduler.ProcessCommands` | crates/agent_core/src/orchestrator.rs:456-543 | one poll handles its batch in order and stops at an abort |
| `Orchestrator.Scheduler.Handle` | crates/agent_core/src/orchestrator.rs:467-541 | each command changes stack, pending frame, cancel mark, pause flag and events as specified |
| `Orchestrator.Scheduler.RerunLastVerifier` | crates/agent_core/src/orchestrator.rs:1125-1178 | a rerun announces its verdict and, unlike the first verification, closes no channel |
| `Orchestrator.Scheduler.WaitWhilePaused` | crates/agent_core/src/orchestrator.rs:546-554 | polls until the pause is over or an abort comes |
| `Orchestrator.Scheduler.Review` | crates/agent_core/src/orchestrator.rs:706-761 | summarizing and verifying emit the specified events; retry and success are decided as specified |
| `Orchestrator.Scheduler.SettleTask` | crates/agent_core/src/orchestrator.rs:649-849 | everything after an execution: cancel, split, failure, retry, success with child, rejection |
| `Orchestrator.Scheduler.ExecuteStep` | crates/agent_core/src/orchestrator.rs:571-659 | a step from its start, with a cancellation before or during it, to its outcome |
| `Orchestrator.Scheduler.RunLoop` | crates/agent_core/src/orchestrator.rs:556-854 | the loop ends in the state and with the result of the specified run |
| `OrchestratorOrder.RunIsTraversal` | crates/agent_core/src/orchestrator.rs:558-853 | without commands the explicit stack emits exactly the events of the recursive depth-first traversal that decides on task state, summary and verdict, from any stack, and completes exactly when it does |
| `OrchestratorOrder.PushedContinues` | crates/agent_core/src/orchestrator.rs:661-849 | the frames a step pushes finish that frame's traversal before the rest of the stack |
| `OrchestratorOrder.QuietTurn` | crates/agent_core/src/orchestrator.rs:558-850 | one turn without commands announces the step, resolves it and pushes its continuation |
| `OrchestratorOrder.TraverseShape` | crates/agent_core/src/orchestrator.rs:763-849 | status, notes, recorded children and history never influence the order |
| `OrchestratorHalting.UsesBounded` | crates/agent_core/src/orchestrator.rs:556-854 | however it ends, a run uses at most as many outcomes as it has steps and its actual retries, splits and children add |
| `OrchestratorHalting.MoreUnused` | crates/agent_core/src/orchestrator.rs:556-854 | a run that leaves an outcome unused does not depend on how many more there are |
| `OrchestratorHalting.BoundedGrowthHalts` | crates/agent_core/src/orchestrator.rs:556-854 | whatever the outcomes, if the retries, splits and children that really happen add a bounded amount of work, some finite number of outcomes ends the run and more change nothing |
| `OrchestratorHalting.EnoughOutcomesFinish` | crates/agent_core/src/orchestrator.rs:556-854 | with usable outcomes for the remaining steps and for what really happens, the run completes |
| `OrchestratorHalting.FiniteGrowthCompletes` | crates/agent_core/src/orchestrator.rs:556-854 | an unbounded supply of usable outcomes with bounded growth completes the run after finitely many |
| `OrchestratorTrace.OneStepAtATime` | crates/agent_core/src/orchestrator.rs:571-849 | in every prefix of the events at most one step is unsettled; every settling event names the step started last, which nothing settled before, and between the two a channel was closed, once, only for a completed step |
| `OrchestratorTrace.OkRunsClose` | crates/agent_core/src/orchestrator.rs:860-982 | on every run that returns Ok, as many channels are closed as steps completed, and without abort every start is settled |
| `OrchestratorTrace.AbortIsLast` | crates/agent_core/src/orchestrator.rs:477-481 | nothing is emitted after an abort, and the run ends there |
| `OrchestratorTrace.RunView` | crates/agent_core/src/orchestrator.rs:556-854 | an observer of the events never sees one out of place, over every run and every sequence of commands |
| `OrchestratorTrace.OutcomeSettlesLast` | crates/agent_core/src/orchestrator.rs:571-849 | between a start and the event that settles it nothing else starts or settles; retried, failed, split and cancelled steps close no channel |
| `OrchestratorTurns.TurnPutsBack` | crates/agent_core/src/orchestrator.rs:558-849 | whatever the commands, a turn applies those it reads to the frames below and then puts back the frame in hand suspended, as its outcome says, or not at all |
| `OrchestratorFrames.ReachableFramesProgress` | crates/agent_core/src/orchestrator.rs:556-854 | in every reachable state each frame, pending or stacked, has only settled steps before its index, none in progress, and a history grown by its completed steps |
| `OrchestratorFrames.BatchConserves` | crates/agent_core/src/orchestrator.rs:467-541 | a batch of commands loses, duplicates or moves no frame and adds exactly the injected specs |
| `OrchestratorFrames.SuspendConserves` | crates/agent_core/src/orchestrator.rs:601-615 | a cancelled frame keeps index, settled steps and history; no frame is lost if and only if none was pending |
| `OrchestratorFrames.TurnConserves` | crates/agent_core/src/orchestrator.rs:558-849 | a turn keeps all frames held and adds the injected ones and what comes back of the frame in hand, exactly unless it suspends that frame while another is pending |
| `OrchestratorFrames.RunConserves` | crates/agent_core/src/orchestrator.rs:556-854 | over any number of turns the account of frames balances |
| `OrchestratorFrames.CancelledComesBack` | crates/agent_core/src/orchestrator.rs:558-559 | some later command brings a cancelled frame back if and only if another frame lies below it; otherwise the run completes with it pending, whatever commands come |
| `OrchestratorFrames.CancelThenResume` | crates/agent_core/src/orchestrator.rs:516-532 | over the run: with a frame below, a resume with the pending prefix, however many polls later, brings the frame back within one turn, unpaused and as it was, after the frame in hand has run its step |
| `OrchestratorFrames.MismatchedResume` | crates/agent_core/src/orchestrator.rs:532-534 | a resume-step changes nothing if and only if it names another prefix than the pending one |
| `OrchestratorFrames.AnnouncedPrefixResumes` | crates/agent_core/src/orchestrator.rs:606-612 | answering the announced prefix of a cancelled step resumes it only for a root step with an empty index |
| `OrchestratorFrames.LastCancellationCompletes` | crates/agent_core/src/orchestrator.rs:649-660 | whenever the last frame's step is cancelled, and nothing was injected or resumed in that turn, the run reports completion with the frame pending and the later commands unread |
| `OrchestratorFrames.CompletedWhilePending` | crates/agent_core/src/orchestrator.rs:649-660 | for every spec, a cancelled first execution without commands completes the run without a completed step and with the other outcomes unused |
| `OrchestratorPrefixes.PrefixesExtendIff` | crates/agent_core/src/orchestrator.rs:661-848 | in every reachable state of every run without injections and resume-steps, over any other commands and any outcomes, each frame's prefix continues those under it by further components, if and only if no step of the root spec has an empty name |
| `OrchestratorPrefixes.FramesArePlaced` | crates/agent_core/src/orchestrator.rs:456-848 | when specs are numbered as `SpecSheet::validate` demands (crates/agent_protocol/src/types/spec.rs:25-38) and injections come under a number, every frame on the stack or pending, over any commands and any outcomes, carries the prefix of a position in the tree of specs |
| `OrchestratorPrefixes.StackIsDescent` | crates/agent_core/src/orchestrator.rs:661-848 | without injections and resume-steps, the positions of two frames of such a run are one strictly below the other |
| `OrchestratorPrefixes.PrefixInjective` | crates/agent_core/src/orchestrator.rs:1232-1238 | with decimal step indices, distinct positions in the tree have distinct prefixes |
| `OrchestratorPrefixes.BelowIsDescendant` | crates/agent_core/src/orchestrator.rs:1232-1238 | one prefix continues another by further components exactly when its position lies below the other's |
| `Summarizer.RunsAreSafe` | crates/agent_core/src/thinking_summarizer.rs:67-242 | over any interleaving the counter equals jobs in flight plus unread messages, the jobs' texts plus the buffer are all text since the last clear, and summaries are handed out at most once in order of arrival |
| `Summarizer.WorldFollowsObject` | crates/agent_core/src/thinking_summarizer.rs:67-242 | the bookkeeping behind it only observes: its state component moves as the object's methods do |
| `Summarizer.EveryRunKeeps` | crates/agent_core/src/thinking_summarizer.rs:67-242 | the invariant behind it is kept by every sequence of adds, flushes, reads, clears and answers |
| `Summarizer.ReceiveKeeps` | crates/agent_core/src/thinking_summarizer.rs:117-134 | receiving one message never saturates the counter |
| `Summarizer.WaitKeeps` | crates/agent_core/src/thinking_summarizer.rs:136-151 | waiting always ends, with nothing pending, in flight or unread, whatever order the jobs answer in |
| `Summarizer.FlushIsFinal` | crates/agent_core/src/thinking_summarizer.rs:80-86 | after a flush nothing is outstanding, residual tokens are zero, fewer than four bytes are buffered and every job has answered |
| `Summarizer.ReadReturnsTheRest` | crates/agent_core/src/thinking_summarizer.rs:220-230 | a read at any point of any run returns exactly the successful answers that arrived and were not returned before, in order of arrival |
| `Summarizer.FlushThenReadReturnsAll` | crates/agent_core/src/thinking_summarizer.rs:80-86 | a flush followed by a read has handed out every successful answer of every job since the last clear, each once |
| `Summarizer.AddSpawnsAtThreshold` | crates/agent_core/src/thinking_summarizer.rs:67-78 | a chunk spawns a job exactly if the buffered text then reaches the threshold, and the job takes the whole text with its counts |
| `Summarizer.AnswersArrive` | crates/agent_core/src/thinking_summarizer.rs:99-109 | an answer arrives with its text and the counts of its job, a failed job as a failure |
| `Summarizer.ThinkingSummarizer.AddThinkingChunk` | crates/agent_core/src/thinking_summarizer.rs:67-78 | drain, buffer, count, and spawn at the threshold |
| `Summarizer.ThinkingSummarizer.SpawnSummaryJob` | crates/agent_core/src/thinking_summarizer.rs:88-115 | a job takes the whole buffer and its counts |
| `Summarizer.ThinkingSummarizer.DrainReadySummaries` | crates/agent_core/src/thinking_summarizer.rs:117-134 | reads every message that has arrived |
| `Summarizer.ThinkingSummarizer.WaitForAllSummaries` | crates/agent_core/src/thinking_summarizer.rs:136-151 | the blocking loop for an arbitrary schedule of answers |
| `Summarizer.ThinkingSummarizer.FlushAll` | crates/agent_core/src/thinking_summarizer.rs:80-86 | drain, last job, wait |
| `Summarizer.ThinkingSummarizer.GetNewSummaries` | crates/agent_core/src/thinking_summarizer.rs:220-230 | reads every arrived message, returns the summaries behind the count handed out before, and advances that count to all of them |
| `Summarizer.ThinkingSummarizer.ClearAll` | crates/agent_core/src/thinking_summarizer.rs:232-242 | a fresh channel forgets running jobs and unread messages |
| `NuSegments.SplitJoin` | crates/sessionizer/src/managed_nu.rs:270-362 | splitting segments joined with ";" gives the same segments back |
| `NuSegments.SplitGivesSegments` | crates/sessionizer/src/managed_nu.rs:270-362 | every split is a list of non-empty trimmed segments of which only the last may leave something open |
| `NuSegments.SegmentIsFixpoint` | crates/sessionizer/src/managed_nu.rs:270-362 | a text is one segment if and only if splitting leaves it as it is |
| `NuSegments.SplitIdempotent` | crates/sessionizer/src/managed_nu.rs:270-362 | splitting, joining and splitting again changes nothing, for every source |
| `NuSegments.SplitIsExact` | crates/sessionizer/src/managed_nu.rs:270-362 | the source without comments can be cut at its top-level semicolons, and however it is, the segments are exactly the non-blank pieces trimmed: no other character is lost, added or moved, no other place is cut |
| `NuSegments.SplitOfPieces` | crates/sessionizer/src/managed_nu.rs:270-362 | joined pieces split into their non-blank trims |
| `NuTokens.SplitCutsTokens` | crates/sessionizer/src/managed_nu.rs:288-362 | a line of quotations, comments and other characters is cut exactly at the semicolons where the saturating counts of all three kinds of brackets are zero; comments go, an unclosed quote runs to the end |
| `NuTokens.EverySourceIsTokens` | crates/sessionizer/src/managed_nu.rs:270-362 | every source is such a line |
| `NuTokens.BracketsHold` | crates/sessionizer/src/managed_nu.rs:321-344 | a text without quotes and brackets, semicolons and hashes included, is one segment between two brackets of a kind |
| `NuTokens.QuotesHold` | crates/sessionizer/src/managed_nu.rs:309-320 | a quotation is one segment whatever is in it but an unescaped quote of its kind |
| `NuTokens.EscapedQuoteHolds` | crates/sessionizer/src/managed_nu.rs:301-304 | an escaped quote does not close a double-quoted or backticked string |
| `NuTokens.SemicolonSeparates` | crates/sessionizer/src/managed_nu.rs:305-308 | a semicolon at top level separates, and a comment there vanishes up to the line end |
| `NuSegments.SplitTopLevelSegments` | crates/sessionizer/src/managed_nu.rs:270-362 | the scanner loop returns the specified split |
| `NuRuntime.RegisterDefWins` | crates/sessionizer/src/managed_nu.rs:680-687 | the last definition of a name wins, other names are untouched, names stay unique |
| `NuRuntime.RegisterAliasWins` | crates/sessionizer/src/managed_nu.rs:689-693 | the same for aliases |
| `NuRuntime.SessionsAreWellFormed` | crates/sessionizer/src/managed_nu.rs:903-1058 | after any command lines and shell answers, names are unique and the journal holds only journal commands |
| `NuRuntime.DefsRebuilt` | crates/sessionizer/src/managed_nu.rs:1195-1198 | registering a duplicate-free list rebuilds it |
| `NuRuntime.AliasesRebuilt` | crates/sessionizer/src/managed_nu.rs:1199-1203 | the same for aliases |
| `NuRuntime.JournalLeavesLists` | crates/sessionizer/src/managed_nu.rs:1205-1227 | replaying a journal command never changes definitions or aliases |
| `NuRuntime.SnapshotRoundTrip` | crates/sessionizer/src/managed_nu.rs:1175-1250 | whenever restoring into a fresh runtime succeeds, the next snapshot has the same commands, aliases, journal and directories, although replay re-records; it succeeds if the shell accepts and no dependency changed |
| `NuRuntime.SessionSurvivesRotation` | crates/sessionizer/src/managed_nu.rs:1060-1250 | the same for the snapshot of any session |
| `NuJournal.SegmentMeans` | crates/sessionizer/src/managed_nu.rs:903-1001 | a segment does all of its effect or nothing, and succeeds exactly if its directory exists, the shell accepts it and its dependencies can be read |
| `NuJournal.JournalIsExact` | crates/sessionizer/src/managed_nu.rs:750-777 | over any command lines the journal grows by exactly the journal segments that ran successfully, in order, each trimmed with its directory and digests; and the directory is where the last move left it |
| `NuJournal.DefinitionsAreExact` | crates/sessionizer/src/managed_nu.rs:680-687 | the custom commands of a session are, of every name, the definition that ran successfully last, and nothing else |
| `NuJournal.AliasesAreExact` | crates/sessionizer/src/managed_nu.rs:689-693 | the same for aliases |
| `NuJournal.ReplayRejournals` | crates/sessionizer/src/managed_nu.rs:1205-1227 | a replay runs every command in order and in its recorded directory: it journals exactly the journal it replays |
| `NuJournal.DefinitionNames` | crates/sessionizer/src/managed_nu.rs:664-670 | a definition, exported or not, names its first word |
| `NuJournal.AliasNames` | crates/sessionizer/src/managed_nu.rs:672-678 | an alias is cut at its first equals sign and both parts are trimmed |
| `NuRuntime.ManagedNuRuntime.AddDef` | crates/sessionizer/src/managed_nu.rs:680-687 | the definition replaces those of its name, at the end of the list |
| `NuRuntime.ManagedNuRuntime.AddAlias` | crates/sessionizer/src/managed_nu.rs:689-693 | the alias replaces those of its name, at the end of the list |
| `NuRuntime.ManagedNuRuntime.RecordReplaySegment` | crates/sessionizer/src/managed_nu.rs:750-777 | appends exactly the journal segment with the current directory and its digests, nothing for any other segment, and fails without a trace if a dependency cannot be read |
| `NuRuntime.ManagedNuRuntime.RunOne` | crates/sessionizer/src/managed_nu.rs:903-1000 | the dispatch of one segment |
| `NuRuntime.ManagedNuRuntime.ExecCommand` | crates/sessionizer/src/managed_nu.rs:1016-1058 | the segments of a command line, up to the first that fails |
| `NuRuntime.ManagedNuRuntime.RestoreFrom` | crates/sessionizer/src/managed_nu.rs:1175-1250 | restoring a snapshot ends in the specified state or an error |
| `NuRuntime.ManagedNuRuntime.ReplayJournal` | crates/sessionizer/src/managed_nu.rs:1205-1227 | each journal command runs in its own directory, then back |
| `Osc133.PushAppend` | crates/sessionizer/src/osc133.rs:76-113 | pushing a then b is pushing a+b, for arbitrary bytes |
| `Osc133.PushChunks` | crates/sessionizer/src/osc133.rs:76-113 | the events and the final state do not depend on the chunks |
| `Osc133.PushSafe` | crates/sessionizer/src/osc133.rs:76-151 | the buffer never exceeds 64 bytes and the zone is that of the last event |
| `Osc133.BelResets` | crates/sessionizer/src/osc133.rs:94-96 | after BEL the parser is in the ground state, whatever came before |
| `Osc133.PrintParse` | crates/sessionizer/src/osc133.rs:137-143 | every 32-bit exit code printed in decimal is read back |
| `Osc133.ParserReadsItems` | crates/sessionizer/src/osc133.rs:76-151 | on any mix of output and operating-system commands the events are the commands' events, in order |
| `Osc133.StripperKeepsDisplay` | crates/sessionizer/src/osc133.rs:161-189 | the stripper removes exactly the OSC 133 sequences |
| `Osc133.MarkerRoundTrip` | crates/sessionizer/src/osc133.rs:115-151 | every marker survives printing, clipping to the buffer and decoding |
| `Osc133.ParserAndStripperAgree` | crates/sessionizer/src/osc133.rs:76-189 | for any mix of markers and escape-free text, cut anywhere, pushing yields the markers and the zone of the last one, and stripping the text |
| `Osc133.Parser.PushData` | crates/sessionizer/src/osc133.rs:76-113 | the byte loop over the bounded buffer refines the specification |
| `Osc133.Parser.PushOneByte` | crates/sessionizer/src/osc133.rs:79-110 | one byte moves the object as specified |
| `Osc133.Parser.DispatchParams` | crates/sessionizer/src/osc133.rs:115-151 | the collected parameters give at most one event and its zone |
| `Osc133.StripOsc133` | crates/sessionizer/src/osc133.rs:161-189 | the index loop returns the specified output |
| `Osc133.SkipLoop` | crates/sessionizer/src/osc133.rs:172-182 | the inner loop finds the terminator |
| `Brackets.FindMatchIff` | crates/edtui/src/helper.rs:173-210 | a position is returned if and only if it is the other end of a pair of the bracket with balanced text between, over any rows |
| `Brackets.FindMatchSymmetric` | crates/edtui/src/helper.rs:173-210 | if i matches j then j matches i |
| `Brackets.MatchUnique` | crates/edtui/src/helper.rs:194-207 | a match is the only one of its opener and of its closer: no nearer and no farther position qualifies in either direction |
| `Brackets.BracketPairs` | crates/edtui/src/helper.rs:174-184 | the three pairs, and no other character, are brackets, and closers search backwards |
| `Brackets.MatchAtIff` | crates/edtui/src/helper.rs:186-209 | the forward and the reverse scan find exactly the matches |
| `Brackets.FindMatchingBracket` | crates/edtui/src/helper.rs:173-210 | the counting loop returns the specified match |
| `EditBuffer.InsertCharRefines` | crates/edtui/src/helper.rs:7-25 | for any cursor, inserting a character or line break inserts it into the joined text at the effective cursor, which is the cursor itself wherever that is in range, opens the row behind the last one, and does nothing farther below |
| `EditBuffer.InsertStrRefines` | crates/edtui/src/helper.rs:28-33 | for any cursor, inserting a text of any length does the same |
| `EditBuffer.InsertStrCursor` | crates/edtui/src/helper.rs:29-31 | the cursor ends on the last inserted character if and only if the text is ASCII |
| `EditBuffer.AppendStrRefines` | crates/edtui/src/helper.rs:36-44 | for any cursor, appending inserts at the effective cursor behind the cursor's character and leaves the cursor on the last character |
| `EditBuffer.LineBreakSplitsRow` | crates/edtui/src/helper.rs:48-63 | all three cases of a line break split the row at the cursor |
| `EditBuffer.CursorSplitsFlat` | crates/edtui/src/helper.rs:48-63 | a cursor splits the joined text as it splits the rows |
| `EditBuffer.Buffer.BreakLine` | crates/edtui/src/helper.rs:48-63 | the rows and the cursor change as specified |
| `EditBuffer.Buffer.Insert` | crates/edtui/src/helper.rs:7-25 | the rows and the cursor change as specified |
| `EditBuffer.Buffer.InsertText` | crates/edtui/src/helper.rs:28-33 | the loop over the characters refines the specification |
| `EditBuffer.Buffer.AppendText` | crates/edtui/src/helper.rs:36-44 | the loop over the characters refines the specification |
| `Wrapping.SliceCovers` | crates/markdown-renderer/src/wrapping.rs:269-307 | slicing spans by any range yields exactly that range of the flattened styled text |
| `Wrapping.WrapKeepsContent` | crates/markdown-renderer/src/wrapping.rs:136-217 | for a wrapper with ordered ranges and only whitespace between them, the lines without indents hold every other character once, in order, with its span's style patched by the line's |
| `Wrapping.WrappedLinesFit` | crates/markdown-renderer/src/wrapping.rs:161-217 | given a wrapper that keeps to its width, every line begins with its own indent, has the line's style and fits beside the indent, or holds one character if the indent is as wide as the line |
| `Wrapping.SliceLineSpans` | crates/markdown-renderer/src/wrapping.rs:269-307 | the loop with its early exits refines the specification |
| `Wrapping.RecordBounds` | crates/markdown-renderer/src/wrapping.rs:140-150 | the recorded bounds are those of the flattened text |
| `Wrapping.WordWrapLine` | crates/markdown-renderer/src/wrapping.rs:136-217 | the loops over the wrapped ranges refine the specification |
| `Chunker.CodeInExactlyOneGroup` | crates/chunker/src/python.rs:43-158 | a node lies in a group if and only if it is neither comment nor docstring, and groups do not overlap |
| `Chunker.GroupsPartition` | crates/chunker/src/python.rs:43-158 | the groups cover the code in order with only trivia between them |
| `Chunker.GroupsOneKind` | crates/chunker/src/python.rs:91-98 | a group of several nodes holds only imports or only expressions |
| `Chunker.NeighboursTogether` | crates/chunker/src/python.rs:128-144 | neighbours stand in one chunk if and only if both are imports or both are expressions and neither is a docstring |
| `Chunker.TriviaInOrder` | crates/chunker/src/python.rs:102-115 | the comment and the docstring before a chunk stand on their own lines in the order of the source |
| `Chunker.ChunkIsNamed` | crates/chunker/src/python.rs:93-99 | what a chunk is called follows from its first node |
| `Chunker.CodeChunksIncrease` | crates/chunker/src/python.rs:75-158 | the code chunks are in increasing order and disjoint, inside the source, and each encloses the nodes of its group |
| `Chunker.TrailingChunksApart` | crates/chunker/src/python.rs:160-186 | the chunks of a last comment and docstring come after all code and do not overlap |
| `Chunker.TriviaKept` | crates/chunker/src/python.rs:51-64 | a comment or docstring reaches a chunk if and only if no other of its kind follows before the next code |
| `Chunker.ChunkTextIsExact` | crates/chunker/src/python.rs:106-135 | a chunk's text is the full text up to its last visible character, and in the full text every node of the group stands exactly as in the source, in order, each followed by a line break |
| `Chunker.CollectNext` | crates/chunker/src/python.rs:70-85 | a chunk still open continues with the next node: the flush at the top of the loop is never taken |
| `Chunker.CollectChunks` | crates/chunker/src/python.rs:21-186 | the loop over buffers, offsets and flags returns the specified chunks |
| `ShellSession.GrantedUnderItsPolicy` | crates/agent_core/src/shell_session.rs:112-165 | every successful request hands back a live session spawned under the policy it read as pending, whatever happens before it and while it spawns |
| `ShellSession.RunsAreSound` | crates/agent_core/src/shell_session.rs:112-165 | under every interleaving the recorded session was spawned under the effective policy |
| `ShellSession.RequestsRecover` | crates/agent_core/src/shell_session.rs:142-162 | a failed request leaves a state in which the next one succeeds |
| `ShellSession.RequestsSettle` | crates/agent_core/src/shell_session.rs:157-164 | after a grant the next request answers at once with the same session if and only if no background process is recorded |
| `ShellCalls.RotationIsExact` | crates/agent_core/src/shell_session.rs:112-165 | a dead session is forgotten with its background flag; a live one is terminated exactly if its policy is not the pending one and no background process is recorded; no other session is touched |
| `ShellCalls.SpawnRestores` | crates/agent_core/src/shell_session.rs:167-193 | a spawned session starts with exactly the journal the request read, and a failed spawn records none |
| `ShellSession.RunsExtend` | crates/agent_core/src/shell_session.rs:176-190 | a session keeps its number and its policy, and the dead stay dead |
| `ShellSession.JournalIsSynced` | crates/agent_core/src/shell_session.rs:195-215 | in a POSIX shell the journal is exactly the successfully synced replay commands, in order, over any interleaving |
| `ShellSession.ExecuteKeeps` | crates/agent_core/src/exec_command.rs:326-430 | a command, through approvals and the one retry, is journalled once if its session was synced and not otherwise, ran under the pending policy, and leaves a session that ran the whole journal |
| `ShellCalls.CommandIsRetriedOnce` | crates/agent_core/src/exec_command.rs:326-430 | while sessions can be had, a command is synced if and only if it runs with a working snapshot after nothing but approvals and at most one failed send |
| `ShellCalls.UnsyncedIsRetired` | crates/agent_core/src/exec_command.rs:326-430 | a command that ran without a sync retires its session exactly if it timed out |
| `ShellSession.ShellRemembers` | crates/agent_core/src/exec_command.rs:326-430 | over any sequence of commands the recorded session has run the whole journal in order, after any number of rotations |
| `ShellSession.MemoryIsGuarded` | crates/agent_core/src/shell_session.rs:112-215 | with several callers, in every interleaving, the recorded session has at every moment run the whole journal if and only if every sync journals a command sent to the recorded session since it caught up and nothing is journalled between a request's start and its spawned session |
| `ShellSession.SyncKeepsMemory` | crates/agent_core/src/shell_session.rs:195-215 | a sync keeps that exactly if its command was sent to the recorded session since it caught up |
| `ShellSession.RotationKeepsMemory` | crates/agent_core/src/shell_session.rs:131-162 | a rotation keeps that exactly if nothing was journalled since the request cloned the journal |
| `ShellSession.CarefulCallersRemember` | crates/agent_core/src/exec_command.rs:339-358 | it holds for callers that sync only into the recorded session, only what they sent there since, and never while a request is under way |
| `ShellSession.InterleavingForgets` | crates/agent_core/src/shell_session.rs:157-162 | a session replaced between a caller's command and its sync leaves one recorded without that command |
| `ShellSession.GlobalState.GetOrCreateShellSession` | crates/agent_core/src/shell_session.rs:112-165 | the object changes and answers as specified |
| `ShellSession.GlobalState.SpawnWithSnapshot` | crates/agent_core/src/shell_session.rs:167-193 | creating and restoring a session, which stays with the manager when restoring fails |
| `ShellSession.GlobalState.SyncContinuityState` | crates/agent_core/src/shell_session.rs:195-215 | the journal is carried over a snapshot, or cleared for managed Nu |
| `ShellSession.GlobalState.ExecuteReplayState` | crates/agent_core/src/exec_command.rs:326-430 | the retry and approval loop refines the specification |
| `Subscribers.RunsAreTidy` | crates/agent_core/src/a2a.rs:158-247 | under every interleaving no task keeps an empty table, tables hold only their task's subscribers, and an open subscriber not removed is present |
| `Subscribers.GoneForGood` | crates/agent_core/src/a2a.rs:186-246 | a subscriber gone from its table never returns |
| `Subscribers.LeavesOnlyClosedOrRemoved` | crates/agent_core/src/a2a.rs:186-246 | a subscriber leaves only because its receiver closed or because it was removed by hand |
| `Subscribers.QuietTablesAreExact` | crates/agent_core/src/a2a.rs:186-203 | once no clean-up is outstanding a subscriber is present if and only if it is open and not removed, and a task has a table if and only if it has a subscriber |
| `Subscribers.BroadcastAccounts` | crates/agent_core/src/a2a.rs:215-246 | every target of a finished broadcast got the event or had closed, never both, and no failed target is ever present again |
| `Subscribers.TargetsAreExact` | crates/agent_core/src/a2a.rs:215-246 | the targets of a broadcast, in any interleaving, are exactly the subscribers of its task present when it begins |
| `Subscribers.BroadcastReachesTheOpen` | crates/agent_core/src/a2a.rs:215-246 | a finished broadcast has reached every registered subscriber of its task that was not removed before and has not closed, and nobody else |
| `Subscribers.TaskStreamManager.Register` | crates/agent_core/src/a2a.rs:165-184 | a fresh subscriber joins its task's table |
| `Subscribers.TaskStreamManager.Remove` | crates/agent_core/src/a2a.rs:205-213 | the subscriber leaves, and an empty table with it |
| `Subscribers.TaskStreamManager.CleanUpAfterClose` | crates/agent_core/src/a2a.rs:186-203 | the clean-up after a receiver has closed |
| `Subscribers.TaskStreamManager.SendTo` | crates/agent_core/src/a2a.rs:228-232 | one delivery fails exactly if the receiver has closed |
| `Subscribers.TaskStreamManager.Send` | crates/agent_core/src/a2a.rs:215-246 | an undisturbed broadcast reaches the open subscribers and leaves exactly those |
| `Table.WidthsAreExact` | crates/markdown-renderer/src/renderer.rs:624-632 | each column is as wide as its widest cell |
| `Table.FittedRoom` | crates/markdown-renderer/src/renderer.rs:634-659 | a table that fits is left alone; a shrunk one has columns of at least three characters that sum to at most the room and three per column, and to at most the room if no share falls below three |
| `Table.SharesAreExact` | crates/markdown-renderer/src/renderer.rs:644-655 | in a shrunk table each column has its share of the room in proportion to its width, rounded down, but three characters at least |
| `Table.CellFills` | crates/markdown-renderer/src/renderer.rs:669-685 | a cell fills its column exactly; a longer one is cut to a prefix, with an ellipsis if there is room, a shorter one is padded with blanks |
| `Table.LineWidths` | crates/markdown-renderer/src/renderer.rs:661-717 | a row's line is as wide as the separator if and only if the row has a cell in every column |
| `Table.ColumnsAlign` | crates/markdown-renderer/src/renderer.rs:661-717 | cell i of every row stands at the same place, and its bar over the separator's cross |
| `Table.RowFrame` | crates/markdown-renderer/src/renderer.rs:661-693 | between two cells stands a bar between blanks, and the same at both ends |
| `Table.RuleFrame` | crates/markdown-renderer/src/renderer.rs:700-717 | the separator consists of dashes and crosses and is closed at both ends |
| `Table.RenderedWidths` | crates/markdown-renderer/src/renderer.rs:661-718 | one line per row and the separator after the first, none wider than the separator |
| `Table.ColumnWidths` | crates/markdown-renderer/src/renderer.rs:624-632 | the loops over rows and cells compute the widths |
| `Table.FitWidths` | crates/markdown-renderer/src/renderer.rs:634-659 | the shrinking loop computes the shares |
| `Table.RenderRow` | crates/markdown-renderer/src/renderer.rs:662-701 | the loop over cells builds the line |
| `Table.RenderSeparator` | crates/markdown-renderer/src/renderer.rs:704-716 | the loop over columns builds the separator |
| `Table.RenderTable` | crates/markdown-renderer/src/renderer.rs:616-719 | the whole table |

## Left out

- Model calls, HTTP, process spawning, terminals, sandboxing and every other foreign call: their outcomes are parameters.
- Thinking stream: cancellation, tool-call deltas, token counts, timings and summary messages of a generation; the thinking tags stay the same during one stream.
- Orchestrator: titles and timestamps, what a verification saw except its task, status updates that fail, and the events of the summarizer and verifier agents themselves; the channel that cancels a running step shows only as a cancelled outcome.
- Orchestrator: `ChildSpecPushed` carries in the model whether a split or an injection pushed the child; the source's event does not.
- Orchestrator: the aborted flag and the parallel entry point, which only calls the sequential run.
- Orchestrator: building specs from goals and from split requests, and validating them, apart from decimal step numbers.
- Summarizer: the request to the summarizing model and the formatting of summaries; a job answers with a text or fails.
- Managed Nu: evaluation, environment, variables, configuration and command history; evaluation is an oracle that may fail and may move the working directory, and the digests of replay dependencies are part of that oracle.
- OSC 133: agreement of parser and stripper on ill-formed streams, where the two treat a stray escape character differently.
- Editor: cursor movement and display widths, and a line break below the row behind the last one, which the row container refuses.
- Wrapping: byte positions and character boundaries, since positions count characters; line alignment, and the text-wrapping library, which is a parameter with a contract.
- Chunker: the parser that produces the siblings, file names and scores; positions and lengths count characters, where the source counts bytes.
- Shell session: working directories and environment variables of a snapshot, isolated commands, stopping a background command, and the generic command path, which is the journalled one without journal and retry.
- Shell session: reading the fields at the start of a request is one step; spawning is a second one, with any other step in between.
- Subscribers: the contents of events and the capacity of channels; spec and step parsing in the same file, and the context clean-up, which runs a list of callbacks.
- Table: the bold style of the header and display widths of wide characters; proportional shares are exact integer divisions where the source multiplies floating-point numbers.
- Table.RenderTable: requires rows with at least one cell, as the source stores no others.
- Conversation rebuilding, tool definitions, prompts, themes and other UI rendering.
