# MegaDesk, modelled and verified

A Dafny 4.11 model of the parts of MegaDesk whose correctness does not show in any one function:
protocols kept over whole histories, loops whose answer is an optimum, structures whose links are
kept in two places, and threads and processes that interleave on Redis. `dafny verify dfyconfig.toml`
checks everything.

Where the source changes state step by step the model does too: classes with the source's fields,
whose methods are proved to compute a specification function (`View() == F(old(View()), …)`), and
the theorems are about those functions over every input, every history or every interleaving. What
the outside world answers (agent runtime, clock, Redis failures, what an HTTP client takes) is an
argument, so each theorem covers every behaviour of it.

| files | what they model |
|---|---|
| `CloudProtocol`, `CloudInvariants`, `CloudTheorems`, `CloudLaunches`, `CloudQueue`, `CloudDelivery`, `CloudSweeps`, `CloudManager` | the CloudFactory order/run protocol: launches, retries, polls, hand-off, rejection, restarts |
| `Text`, `NoteText`, `NoteLines` | greedy word wrap and the font size a sticky note's text collapses to |
| `Sentences`, `CodeScope`, `ScopeService`, `AskOutcomes` | regrouping streamed text into sentences, and answering a question with exactly one final entry, over Redis and as an HTTP generator |
| `WidgetForest`, `WidgetHost` | the widget registry: creation, recursive deletion, re-parenting |
| `SupervisorLease`, `LeaseSafety`, `LeaseRaces` | the Supervisor's timed singleton lease, one Redis command per step: who keeps it, and what racing acquires and releases do to it |
| `SupervisorEngine`, `EngineRaces` | process registry, RUNNINGNODES and NODEEXIT, sequentially and with listener and reaper interleaved |
| `CanvasStreams`, `CanvasRaces` | the canvas command and reply streams, sequentially and with any number of callers interleaved |

## Where the code does less than it is meant to

Each of these is proved with the exact condition under which the property holds, and most with a run that breaks it.

- An order rejected while its only launch is failing for good gets two CLOUDFINISHED entries (`RacedLaunchReportsTwice`); that and a front end that rejects a settled order are the only ways (`OneEntryPerOrderIff`).
- An order that waits for a retry when the process restarts is forgotten: unless its signal is published again it is never launched (`NoOrderIsLost`, `RestartForgets`).
- An order that was put back once and then fails for another reason than not starting, or is rejected during a launch, stays queued although it is done with, and is launched again once its entry is out of sight (`PollKeepsExactly`, `DueOrderIsLaunched`).
- A buffer that asks for 32 characters can publish a shorter sentence, because the extended cut is not checked again (`ShortPieceExists`, `AllPiecesLongIff`).
- The docstring of `fit_text` promises that overflow is dropped rather than drawn past the edge; a note whose inner height is below one smallest line, or whose inner width is below one character while more than empty lines are drawn, is drawn past it (`DrawnInsideIff`, `DrawnWithinWidthIff`).
- A client of the HTTP service that stops at the final entry leaves the session "thinking", or with its old status when the clone is missing; a runner that failed to start then stays cached (`StatusNeedsTheEnd`, `ServedLeaves`).
- `move_item` under the widget itself or one of its descendants, and `_create` over a tag in use, can break the forest (`MoveKeepsForestIff`, `CreateKeepsForestIff`).
- Marking alive every five seconds does not keep the lease by itself. It takes a key with ten seconds left at a mark, which the first mark after start-up need not find, an alive mark that nobody cleared, and no other process that has acquired or is stopping (`LeaseIsSafeIff`, `StartIsThin`, `LoserClearsTheMark`).
- An acquirer that cannot read the alive mark steals a live lease (`AcquireStealsIff`).
- Two Supervisors that start at once can both get in, over a stale key and over a free one alike, since the first marks itself alive only after acquiring. An alive mark prevents it only as long as it outlasts the acquires (`DoubleSteal`, `BothCanAcquireIff`).
- A release can delete a key that changed hands between its two commands, without any time passing since stopping clears the alive mark first (`ReleaseDeletesStolenKey`, `ReleaseDeletesAnothersKeyIff`).
- A process that ends before its hash is written, or whose exit meets a failing Redis call, can leave memory without a NODEEXIT (`ExitCanBeLost`, `ExitIsLostIff`, `HashIsMissingIff`); nothing else but a kill takes a process away unpublished (`EveryExitIsAccountedFor`).
- A canvas whose first look at the end of CANVAS:CMD fails never applies a command (`DeafIff`, `CanApplyIff`, `ServesIff`).
- A reply that is in the stream can be missed behind sixteen others (`ReplyCanBeMissed`, `ReadFindsIff`).
- The module text of the CodeScope manager says that every ask that cannot be answered gets an error answer; one that does not parse is only logged (`AnsweredIff`).

## Model

| member | source | states |
|---|---|---|
| CloudTheorems.ManagerRepeatsOnlyRaces | Nodes/Factory/CloudFactory/CloudFactoryManager/manager.py:152-437 | over every history, a manager-written entry repeats an order of the 200 entries before it if and only if it reports a launch failure that a rejection raced |
| CloudTheorems.OneEntryPerOrderIff | Nodes/Factory/CloudFactory/CloudFactoryManager/manager.py:152-437 | over every history: as long as its entry is among the newest 200 an order has at most one, if and only if the front end rejects only orders without a visible entry and no rejection lands in a launch that is given up |
| CloudTheorems.LaunchRepeatsIff | Nodes/Factory/CloudFactory/CloudFactoryManager/manager.py:178-186 | a launch writes an entry that repeats a recent one exactly when a rejection lands during it and it fails for good |
| CloudTheorems.RacedLaunchReportsTwice | Nodes/Factory/CloudFactory/CloudFactoryManager/manager.py:182-185 | a one-event history that reports one order twice |
| CloudLaunches.LaunchedAtMostThreeTimes | Nodes/Factory/CloudFactory/CloudFactoryManager/manager.py:220-245 | per process generation `runtime.launch` is called at most three times for an order none of whose entries has scrolled out of sight, whatever duplicates and failures occur |
| CloudLaunches.LaunchesAreApart | Nodes/Factory/CloudFactory/CloudFactoryManager/manager.py:152-245 | of any two launches of one order none of whose entries has scrolled, the earlier failed and was put back, and the later comes no sooner than the requested delay, or the default one, after that failure |
| CloudLaunches.RetriesWait | Nodes/Factory/CloudFactory/CloudFactoryManager/manager.py:172-231 | an order that was put back is launched again no earlier than the requested delay, or the default one, after its failure, whether or not its entries have scrolled |
| CloudQueue.TurnLaunchesIff | Nodes/Factory/CloudFactory/CloudFactoryManager/manager.py:152-201 | in every reachable state with a clock that is not negative, a signal is launched in its turn if and only if its order has no run, no visible entry and no delay left to wait for; otherwise only time passes |
| CloudQueue.RetriedIff | Nodes/Factory/CloudFactory/CloudFactoryManager/manager.py:220-245 | a launch of an order none of whose entries has scrolled is put back if and only if it failed to start in a way worth repeating and is the first or second, with the delay asked for or the default one |
| CloudQueue.PollKeepsExactly | Nodes/Factory/CloudFactory/CloudFactoryManager/manager.py:139-149 | after a poll exactly those signals are pending, in queue order, that were held back or put back in their turn, or are done with while attempts of their order are remembered |
| CloudQueue.KeptMeaning | Nodes/Factory/CloudFactory/CloudFactoryManager/manager.py:147-149 | a signal is kept exactly when its order has attempts to remember after its turn, so one that reached a run, or an entry with its attempts cleared, is not |
| CloudQueue.RetriesStayQueued | Nodes/Factory/CloudFactory/CloudFactoryManager/manager.py:220-245 | a launch of a poll that was put back has its signal pending when the poll is over |
| CloudDelivery.NoOrderIsLost | Nodes/Factory/CloudFactory/CloudFactoryManager/manager.py:130-245 | over every history, an order that a poll took in has a run, or an entry, or is queued, until the process restarts |
| CloudDelivery.DueOrderIsLaunched | Nodes/Factory/CloudFactory/CloudFactoryManager/manager.py:139-201 | a queued order without a run or a visible entry, whose delays are over, is launched by the next poll, and once when it stands in the queue once |
| CloudDelivery.RestartForgets | Nodes/Factory/CloudFactory/CloudFactoryManager/manager.py:130-150 | after a restart an order without a run is never launched and gets no run, whatever else happens, unless its signal is published again |
| CloudTheorems.NoAgentIsLost | Nodes/Factory/CloudFactory/CloudFactoryManager/manager.py:187-218 | every minted agent is registered or had a cancel requested, and leaves the live set only after a cancel request or an end the provider reported |
| CloudTheorems.RegistryAndStreamAgree | Nodes/Factory/CloudFactory/CloudFactoryManager/manager.py:283-356 | every terminal run has an entry for its order with its status, and the last manager-written entry naming a run carries the registry's status |
| CloudTheorems.VisibleEntriesAgree | Nodes/Factory/CloudFactory/CloudFactoryManager/manager.py:399-437 | any manager-written entry among the newest 200 that names an agent names a run in exactly that status |
| CloudTheorems.OneRunPerOrderAlways | Nodes/Factory/CloudFactory/CloudFactoryManager/manager.py:161-218 | each order has at most one run in every reachable state, and neither a run nor an entry ever says "finished" |
| CloudTheorems.NoRunForSettledOrder | Nodes/Factory/CloudFactory/CloudFactoryManager/manager.py:187-201 | a pass over the queue leaves no new run for an order with a visible entry, even when the rejection lands while the launch is in flight |
| CloudTheorems.DrainLeavesRuns | Nodes/Factory/CloudFactory/CloudFactoryManager/manager.py:139-149 | working through orders changes no registered run and writes entries only for orders without one |
| CloudTheorems.LaunchCountIsNewRuns | Nodes/Factory/CloudFactory/CloudFactoryManager/manager.py:130-150 | what the poll returns is the number of runs it registered |
| CloudTheorems.SweepLeavesOthers | Nodes/Factory/CloudFactory/CloudFactoryManager/manager.py:268-281 | a sweep changes no run it does not visit and writes only for the orders it visits |
| CloudSweeps.PollVisits | Nodes/Factory/CloudFactory/CloudFactoryManager/manager.py:259-356 | what a due poll makes of every run: a live one that the scan lists is cancelled as refused when an entry of its order can be seen, and recorded so only if the cancel went through; else a PR URL is stored and the agent cancelled without an entry, an end is recorded and published once, a success without a PR as an error, another status is recorded; every other run, its entries and its agent are left alone |
| CloudSweeps.PollReturns | Nodes/Factory/CloudFactory/CloudFactoryManager/manager.py:259-281 | a poll returns the number of runs it took out of the live set |
| CloudSweeps.PollsAreApart | Nodes/Factory/CloudFactory/CloudFactoryManager/manager.py:259-264 | an unforced poll does nothing until the interval after the last one is over |
| CloudSweeps.PollWritesForRuns | Nodes/Factory/CloudFactory/CloudFactoryManager/manager.py:268-281 | a poll keeps every entry and writes only for orders of live runs that the scan lists |
| CloudSweeps.HandedOffForGood | Nodes/Factory/CloudFactory/CloudFactoryManager/manager.py:302-322 | the first PR URL a poll reads for a run is stored without an entry, and from then on the run stays as it is and only the front end writes for its order, over every history in which the operator does not refuse it |
| CloudSweeps.RejectOutcome | Nodes/Factory/CloudFactory/CloudFactoryManager/manager.py:399-437 | a refusal succeeds if and only if it names an order without a visible entry whose run, if any, can be cancelled; then it writes one cancelled entry naming that run and cancels it, otherwise it writes nothing |
| CloudTheorems.HandOffIsPermanent | Nodes/Factory/CloudFactory/CloudFactoryManager/manager.py:302-322 | once a run has a PR URL nothing but an operator's refusal of its own order changes it, and the manager never publishes for that order again, over every sequence of polls, restarts, front-end rejections and refusals of other orders |
| CloudInvariants.HandleOrderKeeps | Nodes/Factory/CloudFactory/CloudFactoryManager/manager.py:152-218 | handling any signal keeps the whole invariant |
| CloudInvariants.DrainKeeps | Nodes/Factory/CloudFactory/CloudFactoryManager/manager.py:139-149 | so does working through any queue |
| CloudInvariants.VisitKeepsInv | Nodes/Factory/CloudFactory/CloudFactoryManager/manager.py:268-280 | so does visiting one live run, given the stream as it was before the sweep |
| CloudInvariants.VisibleIsCancelled | Nodes/Factory/CloudFactory/CloudFactoryManager/manager.py:267-273 | a live run whose order the sweep's snapshot does not show as cancelled is not visibly settled at all, so the snapshot decides rightly |
| CloudInvariants.SweepKeeps | Nodes/Factory/CloudFactory/CloudFactoryManager/manager.py:259-281 | a whole sweep keeps the invariant |
| CloudInvariants.RejectKeeps | Nodes/Factory/CloudFactory/CloudFactoryManager/manager.py:399-437 | an operator's rejection keeps the invariant |
| CloudInvariants.CancelRunKeeps | Nodes/Factory/CloudFactory/CloudFactoryManager/manager.py:418-437 | a cancel reached through a rejection keeps it |
| CloudInvariants.ApplyKeeps | Nodes/Factory/CloudFactory/CloudFactoryManager/manager.py:130-437 | every event keeps the invariant |
| CloudProtocol.SettledMeaning | Nodes/Factory/CloudFactory/CloudFactoryManager/manager.py:384-397 | what the manager sees of an order is its newest entry among the newest 200, and nothing exactly when there is none |
| CloudManager.CloudFactoryManager.FinishedByOrder | Nodes/Factory/CloudFactory/CloudFactoryManager/manager.py:384-393 | one backward read of at most 200 entries gives each order its newest visible entry |
| CloudManager.CloudFactoryManager.RunForOrder | Nodes/Factory/CloudFactory/CloudFactoryManager/manager.py:375-382 | an agent of that order, and none exactly when no run has it |
| CloudManager.CloudFactoryManager.LiveRuns | Nodes/Factory/CloudFactory/CloudFactoryManager/manager.py:358-373 | exactly the runs neither terminal nor handed off, each once |
| CloudManager.CloudFactoryManager.LaunchFailed | Nodes/Factory/CloudFactory/CloudFactoryManager/manager.py:220-245 | requeues with the delay or reports, as the specification does |
| CloudManager.CloudFactoryManager.HandleOrder | Nodes/Factory/CloudFactory/CloudFactoryManager/manager.py:152-180 | the whole new state and result of one signal |
| CloudManager.CloudFactoryManager.AfterLaunch | Nodes/Factory/CloudFactory/CloudFactoryManager/manager.py:181-218 | what follows each outcome of a launch |
| CloudManager.CloudFactoryManager.PollOrders | Nodes/Factory/CloudFactory/CloudFactoryManager/manager.py:130-150 | the loop over pending and new signals computes the specification, what stays pending included |
| CloudManager.CloudFactoryManager.DrainOrders | Nodes/Factory/CloudFactory/CloudFactoryManager/manager.py:139-149 | the loop itself |
| CloudManager.CloudFactoryManager.HonorReject | Nodes/Factory/CloudFactory/CloudFactoryManager/manager.py:283-294 | cancels the agent and records it only if the cancel went through |
| CloudManager.CloudFactoryManager.ApplyState | Nodes/Factory/CloudFactory/CloudFactoryManager/manager.py:296-356 | what a poll answer does to a run, hand-off and normalised success included |
| CloudManager.CloudFactoryManager.VisitRun | Nodes/Factory/CloudFactory/CloudFactoryManager/manager.py:268-280 | one live run of the sweep |
| CloudManager.CloudFactoryManager.PollRuns | Nodes/Factory/CloudFactory/CloudFactoryManager/manager.py:259-281 | the timed sweep computes the specification for a listing of the whole registry, and does nothing before its time |
| CloudManager.CloudFactoryManager.Sweep | Nodes/Factory/CloudFactory/CloudFactoryManager/manager.py:268-281 | the loop over the live runs, with the stream as read before it |
| CloudManager.CloudFactoryManager.Cancel | Nodes/Factory/CloudFactory/CloudFactoryManager/manager.py:418-437 | cancels, records and publishes, or changes nothing but the request |
| CloudManager.CloudFactoryManager.Reject | Nodes/Factory/CloudFactory/CloudFactoryManager/manager.py:399-416 | refuses an unsettled order through its run or with an entry of its own |
| NoteText.WrapLines | Nodes/VisionBoard/vision_board_frontend/board.py:169-195 | the loops compute `Wrapped` |
| NoteText.PlaceWord | Nodes/VisionBoard/vision_board_frontend/board.py:180-193 | the inner loop places one word, hard-split included |
| NoteText.WrapWords | Nodes/VisionBoard/vision_board_frontend/board.py:179-194 | the loop over a paragraph's words |
| NoteText.WrapKeepsInk | Nodes/VisionBoard/vision_board_frontend/board.py:169-195 | no character but white space is lost or moved by wrapping |
| Text.WordsIff | Nodes/VisionBoard/vision_board_frontend/board.py:175-175 | the words of a text are the only non-empty runs of ink that make it up with white space around them and at least some between any two |
| Text.ParagraphsIff | Nodes/VisionBoard/vision_board_frontend/board.py:174-174 | the paragraphs of a text are the only lines without line breaks that make it up with a line break between any two |
| NoteLines.WrapKeepsWords | Nodes/VisionBoard/vision_board_frontend/board.py:169-195 | read word by word the lines are the words of the text in order with only the over-long ones cut, and exactly its words when none is over-long |
| NoteLines.ChunksMakeWord | Nodes/VisionBoard/vision_board_frontend/board.py:181-186 | the pieces of an over-long word make up the word |
| NoteLines.ChunksAreFull | Nodes/VisionBoard/vision_board_frontend/board.py:181-186 | all of them but the last are as long as a line, and the last is not empty |
| NoteLines.ParagraphIsFilled | Nodes/VisionBoard/vision_board_frontend/board.py:174-194 | a paragraph adds an empty line when it has no words, else lines filled with its words, over-long ones cut, one space apart, each with as many as it has room for; no in-order split of them has fewer lines |
| NoteLines.WrapIsFilled | Nodes/VisionBoard/vision_board_frontend/board.py:174-195 | the wrap of a text is what its paragraphs are set in, one after the other |
| NoteText.LinesFitWidth | Nodes/VisionBoard/vision_board_frontend/board.py:181-193 | no line is longer than `max_chars` |
| NoteText.WiderNeedsNoMoreLines | Nodes/VisionBoard/vision_board_frontend/board.py:169-195 | more characters to the line never need more lines, hard-split words included |
| NoteText.GreedyUsesFewestLines | Nodes/VisionBoard/vision_board_frontend/board.py:174-195 | when no word is too long, no in-order split of the words into lines of that width has fewer lines |
| NoteText.GreedyIsASplit | Nodes/VisionBoard/vision_board_frontend/board.py:174-195 | the greedy wrap is itself such a split, so it attains that minimum |
| NoteText.FitsIsDownwardClosed | Nodes/VisionBoard/vision_board_frontend/board.py:218-222 | a text that fits at one size fits at every smaller one |
| NoteText.FirstHitIsThreshold | Nodes/VisionBoard/vision_board_frontend/board.py:216-222 | where the scan stops, every larger candidate fails and every smaller size fits |
| NoteText.HitIsBestFit | Nodes/VisionBoard/vision_board_frontend/board.py:218-222 | stopping at the first hit returns the largest fitting size |
| NoteText.MissIsBestFit | Nodes/VisionBoard/vision_board_frontend/board.py:224-227 | when nothing fits, the smallest size with as many lines as there is room for, at least one |
| NoteLines.CharsAtIsMost | Nodes/VisionBoard/vision_board_frontend/board.py:219-219 | a line is allowed as many characters as have room in the width, and no more |
| NoteLines.CutOffDrawsMost | Nodes/VisionBoard/vision_board_frontend/board.py:224-227 | a text that does not fit is drawn from its first line on, in as many lines of the smallest size as have room, one at least |
| NoteText.FitText | Nodes/VisionBoard/vision_board_frontend/board.py:198-227 | the scan returns the largest fitting candidate with its lines, or the cut-off smallest; blank text gives the largest size and no lines |
| NoteText.DrawnInsideIff | Nodes/VisionBoard/vision_board_frontend/board.py:224-227 | what is drawn stays within the height if and only if the note has room for one smallest line |
| NoteText.DrawnWithinWidthIff | Nodes/VisionBoard/vision_board_frontend/board.py:216-227 | every line that is drawn stays within the width if and only if one character does or only empty lines are drawn |
| NoteText.LinesInsideWidthIff | Nodes/VisionBoard/vision_board_frontend/board.py:219-219 | all lines of the wrap of a text with ink, before any is cut off, stay within the width if and only if one character does |
| Sentences.SearchIsLeftmost | Nodes/Cloud/CodeScope/CodeScopeManager/manager.py:45-45 | the search finds the leftmost boundary, or there is none |
| Sentences.BoundaryIsMatch | Nodes/Cloud/CodeScope/CodeScopeManager/manager.py:45-45 | a boundary is a mark with white space behind it, which is not part of it, or two line breaks, which are |
| Sentences.CutMeaning | Nodes/Cloud/CodeScope/CodeScopeManager/manager.py:67-79 | a text is cut at its first boundary when what stands before it is long enough, else at the next boundary, and only then |
| Sentences.SearchStable | Nodes/Cloud/CodeScope/CodeScopeManager/manager.py:68-78 | appending text never moves a boundary already found |
| Sentences.DrainAppend | Nodes/Cloud/CodeScope/CodeScopeManager/manager.py:64-83 | draining now and again when more arrives comes to draining once |
| Sentences.ChunkingDoesNotMatter | Nodes/Cloud/CodeScope/CodeScopeManager/manager.py:64-88 | for every way of cutting a text into chunks, all pieces and the text held back are those of feeding it whole |
| Sentences.SameTextSamePieces | Nodes/Cloud/CodeScope/CodeScopeManager/manager.py:64-88 | two ways of cutting the same text give the same pieces and the same rest |
| Sentences.DrainKeepsInk | Nodes/Cloud/CodeScope/CodeScopeManager/manager.py:64-83 | the characters other than white space come out in order, in the pieces and the rest |
| Text.StripIsMiddle | Nodes/Cloud/CodeScope/CodeScopeManager/manager.py:72-72 | trimming takes white space off both ends and leaves what stands between untouched |
| Sentences.DrainCutsUp | Nodes/Cloud/CodeScope/CodeScopeManager/manager.py:66-82 | a drain takes stretch after stretch off the text, each at its cut, until there is none, and publishes the stretches trimmed and without the blank ones |
| Sentences.FedTextContains | Nodes/Cloud/CodeScope/CodeScopeManager/manager.py:64-83 | for all chunks, the fed text is the pieces in order, untouched inside, with nothing but white space before, between and after them, and then what is held back |
| Sentences.FlushCompletes | Nodes/Cloud/CodeScope/CodeScopeManager/manager.py:64-88 | with the flushed text as the last piece they make up the whole of it |
| Sentences.PiecesAreSpeakable | Nodes/Cloud/CodeScope/CodeScopeManager/manager.py:72-82 | every piece is non-blank and trimmed |
| Sentences.HeldBackIsShort | Nodes/Cloud/CodeScope/CodeScopeManager/manager.py:67-79 | what is held back has no boundary, or one single boundary after a head that is too short |
| Sentences.AllPiecesLongIff | Nodes/Cloud/CodeScope/CodeScopeManager/manager.py:67-82 | every published piece has at least `min_chars` characters if and only if no remainder reached by the cuts has two boundaries with both heads too short and the second not blank |
| Sentences.AllFedPiecesLongIff | Nodes/Cloud/CodeScope/CodeScopeManager/manager.py:64-82 | the same of a text that arrives in any chunks |
| Sentences.ShortPieceExists | Nodes/Cloud/CodeScope/CodeScopeManager/manager.py:73-79 | a five-character piece out of a buffer that asks for 32 |
| Sentences.SentenceBuffer.Feed | Nodes/Cloud/CodeScope/CodeScopeManager/manager.py:64-83 | the loop terminates and yields and keeps what `Drain` says |
| Sentences.SentenceBuffer.Flush | Nodes/Cloud/CodeScope/CodeScopeManager/manager.py:85-88 | gives the trimmed rest and empties the buffer |
| CodeScope.OneFinalAnswer | Nodes/Cloud/CodeScope/CodeScopeManager/manager.py:219-272 | whatever the runner yields and however it ends, a question that parses is answered by non-final ok sentences and then exactly one final entry, which is last |
| CodeScope.EveryEntryIsSendable | MegaDesk-Contracts/megadesk_contracts/wire/code_scope.py:121-145 | no entry is refused by the wire contract: only the final one may be blank |
| CodeScope.AnsweredIff | Nodes/Cloud/CodeScope/CodeScopeManager/manager.py:219-224 | an entry is answered if and only if it parses; one that does not changes nothing |
| AskOutcomes.AnswerIsOkIff | Nodes/Cloud/CodeScope/CodeScopeManager/manager.py:219-272 | the final entry is ok if and only if the session is registered and parses, its clone is there, a runner for the clone is cached or can be built, and the run ends well; when it does not come to a runner nothing but the error is said |
| AskOutcomes.ErrorSaysWhy | Nodes/Cloud/CodeScope/CodeScopeManager/manager.py:228-272 | an answer that is not ok ends in an entry that says which of these failed |
| AskOutcomes.AnswerIsTheReply | Nodes/Cloud/CodeScope/CodeScopeManager/manager.py:255-263 | the texts of an answer that ends well make up the whole reply, untouched inside, with nothing but white space around them |
| AskOutcomes.FailedAnswerIsABeginning | Nodes/Cloud/CodeScope/CodeScopeManager/manager.py:255-272 | what was said before a failure makes up a beginning of the reply in the same way |
| AskOutcomes.AskLeaves | Nodes/Cloud/CodeScope/CodeScopeManager/manager.py:219-298 | the record keeps its clone, and its agent unless an answer that ended well names another; the runner cached for the clone, or the new one, stays cached unless it failed to start; a runner for another clone is closed; a question that does not come to its clone touches no runner |
| CodeScope.StatusFollowsFinal | Nodes/Cloud/CodeScope/CodeScopeManager/manager.py:252-272 | the session ends ready exactly when the final entry is ok and errored otherwise; no other session or runner is touched |
| CodeScope.AnswerKeepsInk | Nodes/Cloud/CodeScope/CodeScopeManager/manager.py:255-263 | everything said before the runner was done is in the answer, in order; before a failure, a beginning of it |
| CodeScope.ChunkingIsInaudible | Nodes/Cloud/CodeScope/CodeScopeManager/manager.py:256-261 | how the runner cuts its text changes nothing of the outcome |
| CodeScope.NoRunnerIsLost | Nodes/Cloud/CodeScope/CodeScopeManager/manager.py:276-298 | over every history of questions each runner built is closed, or cached by exactly one session |
| CodeScope.ClosingLeavesNoneOpen | Nodes/Cloud/CodeScope/CodeScopeManager/manager.py:201-207 | after closing, every runner ever built is closed, none is cached, and nothing else has changed |
| CodeScope.AskKeepsRunners | Nodes/Cloud/CodeScope/CodeScopeManager/manager.py:219-298 | one question keeps that bookkeeping |
| CodeScope.CodeScopeManager.HandleEntry | Nodes/Cloud/CodeScope/CodeScopeManager/manager.py:219-272 | the whole effect of one CODEQ:ASK entry |
| CodeScope.CodeScopeManager.AnswerFrom | Nodes/Cloud/CodeScope/CodeScopeManager/manager.py:255-272 | streams the reply, then the final entry, the agent id and the status |
| CodeScope.CodeScopeManager.Speak | Nodes/Cloud/CodeScope/CodeScopeManager/manager.py:256-258 | the nested loops publish the sentences of all chunks and keep the rest |
| CodeScope.CodeScopeManager.FindRunner | Nodes/Cloud/CodeScope/CodeScopeManager/manager.py:276-289 | reuses the runner of that clone, else closes it and builds another |
| CodeScope.CodeScopeManager.Close | Nodes/Cloud/CodeScope/CodeScopeManager/manager.py:201-207 | closes every cached runner and forgets them |
| ScopeService.ScopeService.Ask | Nodes/Cloud/CodeScope/CodeScopeManager/service.py:190-271 | the whole effect of one question of which the client takes at most n entries |
| ScopeService.ScopeService.AnswerFrom | Nodes/Cloud/CodeScope/CodeScopeManager/service.py:241-271 | yields sentences, then the final entry, then records the outcome, each only as far as the client goes |
| ScopeService.ScopeService.Speak | Nodes/Cloud/CodeScope/CodeScopeManager/service.py:242-250 | the nested loops yield the sentences of all chunks until the client stops |
| ScopeService.ScopeService.Failed | Nodes/Cloud/CodeScope/CodeScopeManager/service.py:261-271 | yields the error; drops the runner and marks the session only if the client comes back |
| ScopeService.ScopeService.Finished | Nodes/Cloud/CodeScope/CodeScopeManager/service.py:251-260 | yields the final entry; remembers the agent and sets ready only if the client comes back |
| ScopeService.ScopeService.FindRunner | Nodes/Cloud/CodeScope/CodeScopeManager/service.py:273-286 | the runner cache of the service |
| ScopeService.ClientGetsAPrefix | Nodes/Cloud/CodeScope/CodeScopeManager/service.py:214-271 | wherever the client stops, it has a beginning of the whole answer |
| ScopeService.StatusNeedsTheEnd | Nodes/Cloud/CodeScope/CodeScopeManager/service.py:230-271 | a client that comes back after the final entry leaves the status that goes with it, one that does not leaves the session thinking, or as it was when the clone is missing; so the status follows the final entry if and only if the client came back or the session was errored over a missing clone before |
| AskOutcomes.ServedLeaves | Nodes/Cloud/CodeScope/CodeScopeManager/service.py:230-286 | the same for a client that comes back after the final entry; one that stops leaves the old agent, and a runner that failed to start cached |
| AskOutcomes.ServedOkIff | Nodes/Cloud/CodeScope/CodeScopeManager/service.py:190-271 | the client has the whole answer or as many entries as it took; the answer is ok under the same condition; a blank question or an unknown session raises, and a client that takes nothing changes nothing |
| ScopeService.AskedKeepsRunners | Nodes/Cloud/CodeScope/CodeScopeManager/service.py:273-295 | however early clients stop, each runner built is closed or cached by one session |
| WidgetForest.CreateKeepsForestIff | MegaDesk-Contracts/megadesk_contracts/host.py:137-156 | creating keeps a well-formed forest if and only if no widget names the tag as its parent, it is not its own parent, and a tag taken by a listed child keeps that parent |
| WidgetForest.CreateEffect | MegaDesk-Contracts/megadesk_contracts/host.py:137-156 | in any registry the new widget has its parent and value and no children, stands last in the list of a registered parent that did not name it, and nothing else changes; one that is its own parent becomes its only child |
| WidgetForest.MoveKeepsForestIff | MegaDesk-Contracts/megadesk_contracts/host.py:343-362 | moving keeps the forest well-formed if and only if the target is outside the moved subtree |
| WidgetForest.MoveEffect | MegaDesk-Contracts/megadesk_contracts/host.py:343-362 | a move changes the widget's parent and the child lists that name it, and nothing else |
| WidgetForest.MovedStandsBefore | MegaDesk-Contracts/megadesk_contracts/host.py:353-362 | after a move the widget stands directly before the named sibling, or last, and the others keep their order |
| WidgetForest.PlaceBeforeMeaning | MegaDesk-Contracts/megadesk_contracts/host.py:357-362 | where an insertion puts the widget, and that taking it out again gives the siblings back |
| WidgetForest.DeletedExactly | MegaDesk-Contracts/megadesk_contracts/host.py:316-340 | deletion takes exactly the widget and its descendants, or the strict descendants only; whoever is left keeps parent, value and children in order, apart from the one list that named the deleted widget |
| WidgetForest.DeletedIsOne | MegaDesk-Contracts/megadesk_contracts/host.py:316-340 | what is left is a well-formed forest and does not depend on how acyclicity is shown |
| WidgetForest.PruneKeepsForest | MegaDesk-Contracts/megadesk_contracts/host.py:316-340 | taking widgets out, with their names off the remaining lists, keeps child lists duplicate-free and matching the parent links |
| WidgetForest.ChildrenMakeSubtree | MegaDesk-Contracts/megadesk_contracts/host.py:321-322 | the strict descendants of a widget are the subtrees of its children |
| WidgetForest.DeleteNextChild | MegaDesk-Contracts/megadesk_contracts/host.py:321-322 | each turn of the loop over the children takes one more subtree |
| WidgetForest.DropLast | MegaDesk-Contracts/megadesk_contracts/host.py:331-340 | after that, unlisting and dropping the widget itself completes the subtree |
| WidgetHost.Host.Create | MegaDesk-Contracts/megadesk_contracts/host.py:137-156 | registers the widget and links it to a registered parent that does not list it yet, in any registry |
| WidgetHost.Host.DeleteItem | MegaDesk-Contracts/megadesk_contracts/host.py:316-340 | the recursion terminates and leaves `Deleted`, on the same objects |
| WidgetHost.Host.DeleteAll | MegaDesk-Contracts/megadesk_contracts/host.py:321-322 | the loop over a snapshot of the children |
| WidgetHost.Host.Delete | MegaDesk-Contracts/megadesk_contracts/host.py:316-340 | from a well-formed registry to a well-formed registry without exactly those widgets |
| WidgetHost.Host.MoveItem | MegaDesk-Contracts/megadesk_contracts/host.py:343-362 | unlinks, re-parents and inserts, in any registry |
| WidgetHost.Host.InsertAt | MegaDesk-Contracts/megadesk_contracts/host.py:353-362 | inserts at the index of the named sibling, or at the end |
| SupervisorLease.PersistentRedis.Acquire | MegaDesk-Canvas/supervisor/redis_provision.py:207-225 | new keys and result of one undisturbed acquire |
| SupervisorLease.PersistentRedis.Refresh | MegaDesk-Canvas/supervisor/redis_provision.py:228-242 | new keys and result of one undisturbed refresh |
| SupervisorLease.PersistentRedis.Release | MegaDesk-Canvas/supervisor/redis_provision.py:245-258 | deletes the key exactly when the caller owns it |
| SupervisorLease.PersistentRedis.Beat | MegaDesk-Canvas/supervisor/stream_server.py:81-86 | one heartbeat holds on exactly when the key was free or its own, and then owns a live key under a live mark; otherwise the key is as it was |
| SupervisorLease.PersistentRedis.Stop | MegaDesk-Canvas/supervisor/stream_server.py:70-73 | stopping leaves no mark and no key of one's own, and another's key as it was |
| SupervisorLease.AcquireIsItsSteps | MegaDesk-Canvas/supervisor/redis_provision.py:207-225 | the interleaving model's steps, with nobody in between, are the acquire of the class |
| SupervisorLease.RefreshIsItsSteps | MegaDesk-Canvas/supervisor/redis_provision.py:228-242 | the same for a refresh and what the heartbeat makes of it |
| SupervisorLease.BeatIsItsSteps | MegaDesk-Canvas/supervisor/stream_server.py:78-91 | the same for a whole turn of the heartbeat, which marks and refreshes and goes on or ends with the refresh; once stopping it ends without touching anything |
| SupervisorLease.ReleaseIsItsSteps | MegaDesk-Canvas/supervisor/stream_server.py:70-73 | the same for clearing the mark and releasing on stop |
| LeaseSafety.HolderKeepsLease | MegaDesk-Canvas/supervisor/stream_server.py:78-91 | a punctual holder under full cover owns the unexpired key in every state of every run; its refresh never fails and no other process acquires or decides to steal |
| LeaseSafety.LeaseIsSafeIff | MegaDesk-Canvas/supervisor/stream_server.py:50-91 | a punctual owner keeps the key for ever, whatever the others do, if and only if the key outlives the last mark by ten seconds (five between mark and refresh), the alive mark covers that mark, and no other process is about to steal, acquired, running or stopping with a clear or a delete ahead of it |
| LeaseSafety.CushionTooThin | MegaDesk-Canvas/supervisor/stream_server.py:78-91 | without the cushion, a run in which a newcomer takes the lease from a punctual holder |
| LeaseSafety.MarkRunsOut | MegaDesk-Canvas/supervisor/stream_server.py:70-73 | with the alive mark missing or short, a run in which a newcomer does |
| LeaseSafety.RivalUnseats | MegaDesk-Canvas/supervisor/stream_server.py:50-91 | from each of the positions listed, a run in which that process makes a punctual owner lose the key |
| LeaseSafety.FirstRefreshCovers | MegaDesk-Canvas/supervisor/stream_server.py:78-91 | a punctual holder without the cushion gains it with its first refresh, in every run in which the key lasts until then |
| LeaseSafety.StartIsThin | MegaDesk-Canvas/supervisor/stream_server.py:50-55 | start-up makes an acquirer the owner under a covering mark, with the cushion only if no time passed between acquiring and marking |
| LeaseSafety.AcquireStealsIff | MegaDesk-Canvas/supervisor/redis_provision.py:198-225 | an acquirer takes the lease from a covered holder if and only if its read of the alive mark fails |
| LeaseRaces.BothCanAcquireIff | MegaDesk-Canvas/supervisor/redis_provision.py:207-225 | for every t, two acquirers can both return true within t seconds, with the mark readable, if and only if the alive mark does not outlast that time, or the time is enough for a key to run out after the first has taken it |
| LeaseRaces.DoubleSteal | MegaDesk-Canvas/supervisor/__main__.py:61-74 | without an alive mark one such run over a held and over a free key alike; the key names the later one |
| LeaseRaces.DoubleStealIsWon | MegaDesk-Canvas/supervisor/redis_provision.py:219-225 | it leaves the later one as the winner of a live key and the other as a loser, if nobody is about to delete the key |
| LeaseRaces.WinnerKeepsKey | MegaDesk-Canvas/supervisor/stream_server.py:70-91 | after a double steal, without further acquires and while the key does not run out, no beat, stop or release of any loser takes or deletes the winner's key |
| LeaseRaces.PunctualWinnerKeepsKey | MegaDesk-Canvas/supervisor/stream_server.py:78-91 | and it does not run out while the winner is punctual with its cushion |
| LeaseRaces.LoserStops | MegaDesk-Canvas/supervisor/stream_server.py:82-88 | a loser's heartbeat ends at its next look at the key, in any run, and never beats again |
| LeaseRaces.StoppedBeatMarksNoMore | MegaDesk-Canvas/supervisor/stream_server.py:78-91 | the heartbeat of a stopping process marks nothing any more once it is between two turns, in any run, and ends at its next one |
| LeaseRaces.LoserClearsTheMark | MegaDesk-Canvas/supervisor/stream_server.py:70-73 | the loser's stop clears the winner's alive mark, and the next acquirer steals from a running winner |
| LeaseRaces.ReleaseDeletesAnothersKeyIff | MegaDesk-Canvas/supervisor/redis_provision.py:254-256 | for every run between the two commands of a release, deletes by others included, the second deletes the key of whoever took it last and was not deleted since; when the others only take the key, that is another's if and only if somebody stole it, or took or retook it expired, in between |
| LeaseRaces.ReleaseDeletesStolenKey | MegaDesk-Canvas/supervisor/stream_server.py:70-73 | such a run in which no time passes: the key is stolen, live, because the mark was cleared first |
| LeaseRaces.ReleaseDeletesRetakenKey | MegaDesk-Canvas/supervisor/redis_provision.py:254-256 | such a run in which the key expires and is taken |
| SupervisorEngine.ExecutionEngine.Kill | MegaDesk-Canvas/supervisor/engine.py:127-157 | new state and outcome for held, stale, unknown and mismatched ids |
| SupervisorEngine.KillExactly | MegaDesk-Canvas/supervisor/engine.py:127-157 | a kill succeeds if and only if the id is known, in memory or else by its hash, and the endpoint is blank or matches; then nothing is left of the id, the kill switch is set if a process was held, and nothing else changes; otherwise nothing changes |
| SupervisorEngine.ExecutionEngine.ReapEntry | MegaDesk-Canvas/supervisor/engine.py:182-207 | one turn of the reaper's loop |
| SupervisorEngine.ExecutionEngine.ReapExits | MegaDesk-Canvas/supervisor/engine.py:175-223 | the loop over a snapshot of the registry and the sweep after it compute the specification, the returned count included |
| SupervisorEngine.ExecutionEngine.ReconcileStale | MegaDesk-Canvas/supervisor/engine.py:225-260 | drops exactly the hashes neither held nor reported alive, for any scan order with repetitions, and counts them |
| SupervisorEngine.ReapEachMeaning | MegaDesk-Canvas/supervisor/engine.py:182-207 | a pass takes exactly the exited processes out of memory and their hashes with them |
| SupervisorEngine.ReapEachPublishes | MegaDesk-Canvas/supervisor/engine.py:195-207 | it publishes exactly one NODEEXIT for each held process that exited with its hash still there, and nothing else |
| SupervisorEngine.PassLeavesNoCorpse | MegaDesk-Canvas/supervisor/engine.py:175-260 | after an undisturbed pass every remaining hash is held by a running process or reported alive, and no such hash is lost |
| SupervisorEngine.PassTwice | MegaDesk-Canvas/supervisor/engine.py:175-260 | a second pass with the same answers changes nothing |
| SupervisorEngine.KillUndoesLaunch | MegaDesk-Canvas/supervisor/engine.py:88-157 | killing takes back a launch but for the kill switch; a wrong endpoint changes nothing |
| EngineRaces.LaunchIsItsSteps | MegaDesk-Canvas/supervisor/engine.py:102-116 | undisturbed steps of a launch are the launch of the class |
| EngineRaces.KillIsItsSteps | MegaDesk-Canvas/supervisor/engine.py:133-157 | undisturbed steps of a kill are the kill of the class |
| EngineRaces.ReapEntryIsItsSteps | MegaDesk-Canvas/supervisor/engine.py:182-207 | undisturbed steps on one entry are one turn of the reaper's loop |
| EngineRaces.ScanIsItsSteps | MegaDesk-Canvas/supervisor/engine.py:232-237 | an undisturbed scan lists every hash, and then the registry as it is |
| EngineRaces.KeyIsItsSteps | MegaDesk-Canvas/supervisor/engine.py:238-259 | undisturbed steps on one key drop its hash exactly when it is neither held nor reported alive |
| EngineRaces.StepKeeps | MegaDesk-Canvas/supervisor/engine.py:88-260 | every step of listener, reaper and processes keeps the invariant |
| EngineRaces.HeldHashesStay | MegaDesk-Canvas/supervisor/engine.py:88-260 | over all interleavings no step removes or changes the hash of a process held in memory |
| EngineRaces.EveryHeldProcessIsListed | MegaDesk-Canvas/supervisor/engine.py:102-116 | every held process has a hash that names it, except the one whose launch is just writing it |
| EngineRaces.ReconcileSparesTheHeld | MegaDesk-Canvas/supervisor/engine.py:225-260 | reconciling never drops the hash of a held process, with launches anywhere between key scan and registry read |
| EngineRaces.OneExitPerProcess | MegaDesk-Canvas/supervisor/engine.py:175-207 | over all interleavings of launch, kill, exit and reap an id gets at most one NODEEXIT, with its real exit code and after leaving memory |
| EngineRaces.ExitIsLostIff | MegaDesk-Canvas/supervisor/engine.py:195-223 | on the entry at hand the reaper loses the exit if and only if its call fails or, looking for the hash, it finds none |
| EngineRaces.HashIsMissingIff | MegaDesk-Canvas/supervisor/engine.py:102-157 | the hash is missing then if and only if the launch has not written it yet or a kill has deleted it |
| EngineRaces.LostIsNeverPublished | MegaDesk-Canvas/supervisor/engine.py:175-223 | a lost exit is never published, however long the system runs |
| EngineRaces.FoundIsPublished | MegaDesk-Canvas/supervisor/engine.py:196-206 | otherwise it is published by the next successful call, whatever the others do in between |
| EngineRaces.EveryExitIsAccountedFor | MegaDesk-Canvas/supervisor/engine.py:88-223 | over every interleaving, a launched process that has left memory and that the reaper is done with has its exit published, or was flagged by a kill, or had its exit lost, and a lost one has none |
| EngineRaces.ExitCanBeLost | MegaDesk-Canvas/supervisor/engine.py:102-223 | from a fresh start, a run in which a process ends before its hash is written and no NODEEXIT is ever published for it |
| CanvasStreams.CanvasApi.Connect | MegaDesk-Canvas/engine/canvas_api.py:68-95 | connecting sets the cursor once, to the end of the stream or to `$` |
| CanvasStreams.CanvasApi.DrainCommands | MegaDesk-Canvas/engine/canvas_api.py:97-119 | one drain computes the specification, the returned count included |
| CanvasStreams.HandleUpToMeaning | MegaDesk-Canvas/engine/canvas_api.py:110-119 | a batch applies its commands in order and replies to each in order |
| CanvasStreams.DrainOutcome | MegaDesk-Canvas/engine/canvas_api.py:68-119 | what a drain comes to, in every case: without a connection nothing changes, a failed read loses the connection and leaves the cursor, else at most sixteen commands are applied and replied to in order, and the connection is lost exactly when a reply fails |
| CanvasStreams.RepliesAreNamed | MegaDesk-Canvas/engine/canvas_api.py:121-140 | every reply carries the id of its command, and never a blank one |
| CanvasStreams.WaitAnsweredIff | MegaDesk-Canvas/canvas_tools/__init__.py:49-79 | a wait of n reads that find the same replies is answered with the first reply to its request if and only if it is among the first 16 n behind the cursor; otherwise it gives up, or reports the read that failed |
| CanvasStreams.Wait | MegaDesk-Canvas/canvas_tools/__init__.py:49-79 | the nested loops compute the wait, with failing reads and batches of sixteen |
| CanvasStreams.CallComesBack | MegaDesk-Canvas/canvas_tools/__init__.py:82-104 | a call to a canvas less than a batch behind comes back, after one drain and one read, with the outcome of its own command |
| CanvasRaces.HandleIsItsSteps | MegaDesk-Canvas/engine/canvas_api.py:112-140 | undisturbed steps on one command are one turn of the drain's loop |
| CanvasRaces.DrainIsItsSteps | MegaDesk-Canvas/engine/canvas_api.py:97-119 | undisturbed steps from connecting through the whole batch are the drain of the class |
| CanvasRaces.ReadIsOneRound | MegaDesk-Canvas/canvas_tools/__init__.py:51-78 | one read of the interleaving model is one round of the wait |
| CanvasRaces.StepKeeps | MegaDesk-Canvas/engine/canvas_api.py:68-140 | every step of canvas and callers keeps the invariant |
| CanvasRaces.CommandsAppliedInOrder | MegaDesk-Canvas/engine/canvas_api.py:97-119 | over every interleaving the commands applied are exactly those from where the canvas attached to its cursor, each once and in order |
| CanvasRaces.DeafForever | MegaDesk-Canvas/engine/canvas_api.py:88-106 | a canvas left at `$` never applies or answers anything again, over every run |
| CanvasRaces.CanApplyIff | MegaDesk-Canvas/engine/canvas_api.py:68-119 | in every reachable state the canvas can apply another command if and only if it does not read from `$` |
| CanvasRaces.DeafIff | MegaDesk-Canvas/engine/canvas_api.py:68-95 | over every run it comes to read from `$` if and only if the first drain whose ping succeeded failed to look at the end of the stream |
| CanvasRaces.ServesIff | MegaDesk-Canvas/engine/canvas_api.py:68-119 | so over every run it goes on serving if and only if that first look did not fail |
| CanvasRaces.AnswerIsOwn | MegaDesk-Canvas/canvas_tools/__init__.py:61-78 | a caller that is answered gets the outcome of applying its own command, the only one with its id |
| CanvasRaces.MissedOnlyBehindABatch | MegaDesk-Canvas/canvas_tools/__init__.py:49-79 | a reply that was there at a caller's last read was missed only if that read returned sixteen entries and stopped short of it |
| CanvasRaces.ReadFindsIff | MegaDesk-Canvas/canvas_tools/__init__.py:54-69 | a read finds the caller's reply if and only if it is among the first sixteen after the cursor |
| CanvasRaces.OneReplyPerCaller | MegaDesk-Canvas/engine/canvas_api.py:121-140 | a request id is answered at most once |
| CanvasRaces.ReplyCanBeMissed | MegaDesk-Canvas/canvas_tools/__init__.py:39-79 | a run in which a caller gives up with its reply in the stream |

## Left out

- Redis flushes, crashes inside a manager method, two managers or two canvases at once, and network or Redis errors other than the ones named in the model: the code does not keep the stated properties there.
- CloudManager.CloudFactoryManager.PollOrders: each method is atomic against the front end except that a rejection may land during a launch; the reference copy of each signal in CLOUDORDER, repository and title fields, and logging are not modelled.
- CloudTheorems.OneEntryPerOrderIff: the front end is an arbitrary appender of cancelled entries; how its own window decides which rejections it offers is not modelled.
- CloudManager.CloudFactoryManager.LiveRuns: a key scan that yields a key twice, and hashes that do not parse, are not modelled.
- CloudLaunches.RetriesWait: clock readings and delays are reals, so floating-point rounding is not modelled; the same holds for sizes in `NoteText`. The results of `CloudQueue` and `CloudDelivery` take the monotonic clock not to be negative.
- CodeScope.CodeScopeManager.HandleEntry: consumer-group reads and acknowledgements, and exceptions other than the two agent errors, are not modelled.
- ScopeService.ScopeService.Ask: cloning, syncing and listing, the JSON file, and a record rewritten by a concurrent `open_repo` are not modelled.
- WidgetHost.Host.Create: generated tags, the parent stack (the parent is passed in resolved) and everything visual are not modelled.
- LeaseSafety.HolderKeepsLease: two processes with the same owner token, and Redis errors inside a heartbeat, are not modelled.
- EngineRaces.OneExitPerProcess: `kill_all` on exit is not interleaved; Redis errors of the listener, and the shutdown grace period, are not modelled.
- SupervisorEngine.ExecutionEngine.ReconcileStale: whether a node is reported alive (heartbeat key, process id, grace period) is an answer of the environment.
- CanvasRaces.MissedOnlyBehindABatch: reply entries written by anybody but the canvas, and stream trimming, are not modelled.
- What the canvas verbs do to the board, wire parsing and JSON encoding: the outcome of applying a command is an answer of the environment.
- The front ends, panels, camera and drag geometry, the tool catalogue, WorkDispatcher ordering, Notepad and Docker provisioning: they would only add easy members.
