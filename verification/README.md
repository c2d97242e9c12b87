# Loom, modelled and proved

Loom runs coding agents under a harness: every run is an append-only event log, a finished run has been verified, and
around that stand tenant API keys, backups, remote workspaces and a benchmark that decides whether a changed skill is
promoted. This project models the parts of it that are protocols, state machines or exact arithmetic, and proves what
they promise for every input, every run or every reachable state.

`dafny verify dfyconfig.toml` checks everything.

## How it is organised

| file | what it models |
|---|---|
| `EventText.dfy` | the text of `events.jsonl`: writing, tearing and reading records, and the next sequence number |
| `AppendProtocol.dfy` | any number of callers in any number of processes appending to one log: promise queues, the lock file, stale takeovers, crashes and failures at any step, as interleaved atomic steps |
| `Takeovers.dfy` | when taking over a stale lock file is safe, and three runs in which it is not |
| `LogFile.dfy` | a log file as its reader sees it: what is readable, and how it ends |
| `AppendLock.dfy` | one waiter acquiring the lock file, with real waiting times |
| `Events.dfy`, `Agents.dfy` | log entries; the scripted agent and the agent with setup steps in front |
| `HarnessLoop.dfy` | one invocation of the harness loop, as an imperative class proved to append only words of an automaton |
| `HarnessRuns.dfy` | what all those words, and all logs built up by resumed invocations, have in common |
| `HarnessWords.dfy` | the same words entry by entry: how an invocation opens, that every action is run, how it ends, what the summary reports |
| `ModelUsage.dfy`, `Metric.dfy` | usage totals read off a log; rounding to 1e-12 |
| `SignTest.dfy`, `Benchmark.dfy` | the exact one-sided sign test; the paired benchmark, its gates and its decision |
| `BenchmarkDecision.dfy` | when the benchmark promotes, rejects or holds back, in terms of its cases |
| `ApiKeys.dfy` | creating, rotating and revoking tenant API keys under an advancing clock |
| `RedisBackup.dfy` | backing up one Redis prefix and restoring it under another |
| `ShellWords.dfy` | shell quoting, read back by a lexer for sections 2.2.1, 2.2.2, 2.2.3 and 2.3 of the XCU Shell Command Language of POSIX.1-2017 |
| `ContentsStore.dfy` | the compare-and-swap contents store |

Code that updates state in place is modelled by classes and loops (`AppendLock.LockFile`, `Agents.ScriptedAgent`,
`HarnessLoop.HarnessRun`, `ApiKeys.TenantPolicy`, `RedisBackup.Redis`, `ContentsStore.ContractState`, the loops of the sign test,
the usage summary and the benchmark), each proved against a specification function or an automaton, about which the laws are then proved.

Choices that stand for something outside: clocks are parameters (any values, constrained only where a statement
says so); tools, verification commands, agents, the abort signal and pause requests are nondeterministic; a record's JSON text is a
sequence of abstract pieces, so that a strict prefix, or a record behind other text on its line, does not decode;
SHA-256 is an injective constructor; `Math.round` is floor(x + 1/2) over exact reals.

## Where the code falls short of its promise, and exactly when

The repository's README (lines 27 to 34) promises one monotonic sequence per run, atomic appends and verification as a hard gate.

* **Torn appends.** Readers always see 1, 2, ..., m. But an append that follows a crashed one on the same line is
  returned to its caller and then never seen by any reader, and its number is issued again: the new record is visible if and only if
  the file ended at a line start and the record is acceptable (`AppendKeepsNumbering`, `TornAppendReissuesNumber`). Over every run,
  the finished lines are exactly the records appended that way (`FinishedLinesAreTheKeptAppends`), and they stay for ever
  (`FinishedRecordsStay`). A crash between a record's text and its newline loses even the record that was already readable
  (`UnterminatedRecordIsLost`).
* **Wrong run id.** Number 1 is given out again and again exactly as long as no caller with data has named the base name of
  the log's directory as its run id; from then on it counts the appends with data, whatever later callers name (`NumberOneUntilARunIdMatches`).
* **Stale takeover.** A takeover is a stat, a look at the clock and an unlink, with any delay in between. For every margin,
  the lock excludes all but one writer in every run in which writers at work have held it for less than a minute less the margin,
  callers are never further behind their stat than the margin, and no two of them look at a file that old (`OrderlyRunsAreSafe`).
  None of the three conditions can be dropped: a slow writer is joined by a waiter (`SlowWriterLosesItsLock`), two waiters that take over
  at once both get in (`TwoTakeoversLetTwoIn`), and a waiter that looks at the clock late unlinks another writer's file
  (`LateLookLetsTwoIn`); each of these runs keeps the other two conditions. For a single takeover the condition is exact: after it, two
  writers can get in without another one if and only if the file was that of a writer at work (`TakeoverIsSafeIffHolderIsGone`), which
  means that this writer is slow or that the file was replaced after the stat (`RobberyIsSlowOrReplaced`).
* **Resuming behind a torn message.** When a process stops between the text of a message and its newline, the resumed
  invocation counts that message, loses it with its own first entry and asks the agent for it again. Message k of the log is still the
  agent's step k, but its iteration is one too high, and the next resume repeats the last number (`UnendedMessageSkipsAndRepeats`).
  The iterations read 1, 2, 3, ... if and only if no message in the log was written by an invocation that opened so
  (`IterationsReadInOrderIffNoneSkips`).
* **Blank steps.** A null setup step hands over to the wrapped agent, which is then ahead of the log. Setup steps in front
  of a script are one script on every call history if and only if none of them is blank or the script answers nothing but "script
  exhausted" (`SetupThenScriptIsOneScript`).
* **A lone waiter.** One that started no later than the crashed holder's write times out instead of taking over
  (`EarlyWaiterTimesOut`); one that started a round later always takes over (`LateWaiterTakesOver`).
* **Reviewers.** The README calls reviewer commands non-gating. They are, for the run's status
  (`ReviewerDoesNotGate`), but the benchmark does not count a run as passed whose reviewer failed (`PassedIffSucceededAndReviewed`).
* **Key start dates.** The duplicate check looks at currently active keys only. Tokens stay unambiguous when no key has
  a start date; otherwise a key added by a create or a rotate is unambiguous if and only if no key that bears its token is scheduled to
  start during its life (`CreateIsExclusiveIffNoneScheduled`, `RotateIsExclusiveIffNoneScheduled`; for inputs, `StartDateLetsTokenTwice`,
  `StartDateLetsTokenTwiceByRotation`).
* **Backups.** A backup is restorable if and only if no dumped key was scanned twice, and Redis does not promise that
  of SCAN (`RestorableIffScannedOnce`; for an input, `ScannedTwiceIsRefused`). A key whose remaining time reads 0, or that expires between its dump and its PTTL, comes back
  without any expiry; every other expiry comes back earlier by the delay of the reading (`RestoredLifetime`; for
  inputs, `ExpiringKeyIsRestoredForEver`).
* **Rounded pass rates.** The twice-rounded delta keeps the sign of the difference in passes for all pass counts if and
  only if there are at most 10^12 cases (`SignIsKeptIffCasesFit`).

## Model

| member | source | states |
|---|---|---|
| `AppendProtocol.MutualExclusion` | src/harness/run-store.ts:69-93 | in every run of every number of processes and callers, with crashes and failures anywhere, at most one writer is between create and unlink, unless a takeover has unlinked the lock of a writer still at work |
| `Takeovers.OrderlyRunsAreSafe` | src/harness/run-store.ts:69-176 | for every margin: in every run, with crashes, failures and takeovers, in which writers at work have held the lock for less than a minute less the margin, callers unlink no later than the margin after their stat, and no two of them look at a file old enough to be taken, there is at most one writer, readers see 1, 2, ..., m, and without parts of records and with proper callers the log is exactly the appends |
| `Takeovers.OrderlyRunsAreNotRobbed` | src/harness/run-store.ts:168-176 | in such a run whoever is about to unlink a stale lock file finds one whose writer is gone |
| `Takeovers.PromptRunsAreOrderly` | src/harness/run-store.ts:168-176 | a run in which every lock file belongs to a writer at work and is younger than a minute less the margin, and callers are in time, has no takeover at all and is such a run |
| `Takeovers.TakeoverIsSafeIffHolderIsGone` | src/harness/run-store.ts:168-176 | after a takeover, some continuation without another takeover brings two writers between create and unlink if and only if the lock file taken was that of a writer at work |
| `Takeovers.RobberyIsSlowOrReplaced` | src/harness/run-store.ts:168-176 | in every run so far sound, a takeover hits a writer at work if and only if the file is the one it saw and its writer has been at work for a minute or more, or another writer has replaced it since |
| `AppendProtocol.LockKept` | src/harness/run-store.ts:145-176 | every step but such a takeover keeps every writer the owner of the lock file |
| `AppendProtocol.RunKeepsInv` | src/harness/run-store.ts:69-166 | the lock, numbering, acknowledgement and queue-order invariants hold in every reachable state |
| `AppendProtocol.ReaderSeesEverySeqOnce` | src/harness/run-store.ts:95-109 | whatever torn records crashes left, a reader of the log sees exactly 1, 2, ..., m in file order |
| `AppendProtocol.LogIsTheAppends` | src/harness/run-store.ts:69-109 | with crashes and failures anywhere, as long as none leaves a part of a record behind, and with matching run ids, the log is exactly the appends that wrote a record, numbered 1 to n, one call each and carrying what that call passed, nothing returned that is not in it, the calls of one process in the order they entered |
| `AppendProtocol.NumbersAreNotShared` | src/harness/run-store.ts:69-93 | in such a run two different calls are never returned the same number |
| `AppendProtocol.FinishedLinesAreTheKeptAppends` | src/harness/run-store.ts:81-109 | in every run whatsoever, the finished lines are exactly the acceptable records that were appended at a line start, in order; every record, in the log or returned, carries the data of its call, under the log's run id or the caller's |
| `AppendProtocol.FinishedRecordsStay` | src/harness/run-store.ts:84 | from every state on, whatever follows, a finished record that a reader sees is never lost or moved |
| `AppendProtocol.WaitersWaitAMinute` | src/harness/run-store.ts:157-172 | a waiter takes over if and only if the file it saw is a minute old, and gives up if and only if it has itself waited for a minute |
| `Takeovers.LoneAppendGoesThrough` | src/harness/run-store.ts:77-91 | from every state with a free lock, a new caller whose process is idle gets its record into the log, is returned it, and leaves the lock free |
| `AppendProtocol.FifoKept` | src/harness/run-store.ts:77-91 | every step, crashes included, keeps a process serving its callers one at a time and in order of entry |
| `AppendProtocol.AppendKeepsText` | src/harness/run-store.ts:81-85 | the write of one whole record by the lock's holder keeps the numbering and keeps log and acknowledgements equal |
| `AppendProtocol.TearKeepsText` | src/harness/run-store.ts:84-88 | an append cut off anywhere keeps the numbering and every other prepared number valid |
| `Takeovers.SlowWriterLosesItsLock` | src/harness/run-store.ts:168-176 | a concrete run from the start, callers in time and takeovers one at a time, in which a writer stalled for a minute is joined in the critical section by a waiter |
| `Takeovers.TwoTakeoversLetTwoIn` | src/harness/run-store.ts:168-176 | a concrete run from the start, writers quick and callers in time, in which two callers that both saw a crashed holder's stale lock file are both let in |
| `Takeovers.LateLookLetsTwoIn` | src/harness/run-store.ts:170-172 | a concrete run from the start, writers quick and takeovers one at a time, in which a caller reads the clock half a minute after its stat and unlinks the file of a writer that came in between |
| `Takeovers.TakeoverKept` | src/harness/run-store.ts:168-176 | every step of such a run leaves whoever looks at an old lock file looking at one without a writer at work |
| `AppendProtocol.TornAppendReissuesNumber` | src/harness/run-store.ts:95-109 | after a torn record, an append's number is issued again by the next append and its own record is never read |
| `AppendProtocol.SecondAppendGetsTwoIffRunIdMatches` | src/harness/run-store.ts:103-104 | the second append to a fresh log is numbered 2 if and only if the caller's run id is the name of the log's directory |
| `EventText.ReadFromTheEnd` | src/harness/run-store.ts:212-220 | splitting, decoding and filtering a file accepts the finished lines, then the unfinished one |
| `EventText.AppendKeepsNumbering` | src/harness/run-store.ts:95-109 | appending the next record keeps the numbers the reader sees 1 to m whatever the file ended with; the record becomes visible if and only if the file ended at a line start and the record is acceptable |
| `EventText.TearKeepsNumbering` | src/harness/run-store.ts:84 | any prefix of the next record at the end of the file keeps the numbers the reader sees 1 to m |
| `EventText.NextNumber` | src/harness/run-store.ts:101-104 | the maximum over the filtering reader is the number of readable records, so the next record carries one more, with their run id |
| `EventText.NextCarriesData` | src/harness/run-store.ts:102-108 | the next record carries the data it is given, under the run id of the log or of the caller |
| `EventText.JoinedLineDoesNotDecode` | src/harness/run-store.ts:222-231 | a record behind other text on its line is never read, whole or torn |
| `EventText.AppendAfterTear` | src/harness/run-store.ts:84 | an append behind an unfinished line leaves exactly the finished lines readable |
| `EventText.UnterminatedRecordIsLost` | src/harness/run-store.ts:84 | a crash before the newline: the readable record disappears with the next append, which is lost too |
| `EventText.NumberOneUntilARunIdMatches` | src/harness/run-store.ts:101-104 | after any appends by callers with any run ids, the next number is one more than the appends with data since the first that named the log's own run, and it is 1 if and only if none did |
| `EventText.WritingAppends` | src/harness/run-store.ts:84 | writing an acceptable record and its newline adds it to what a reader sees, or loses it together with the unfinished line it joins |
| `EventText.TearingCutsShort` | src/harness/run-store.ts:84 | a record cut anywhere before its newline is seen only if it is entire and on a line of its own, and takes an unfinished line with it otherwise |
| `EventText.OwnRunIdOnly` | src/harness/run-store.ts:233-244 | only records with the directory's run id, a positive number and data are read |
| `AppendLock.LockFile.Acquire` | src/harness/run-store.ts:140-176 | acquires if and only if the file is missing or some round finds it a minute old before the waiter itself has waited a minute; at most 2400 sleeps |
| `AppendLock.LateWaiterTakesOver` | src/harness/run-store.ts:157-163 | a lone waiter that started at least one round after a crashed holder's write takes the lock over instead of timing out |
| `AppendLock.EarlyWaiterTimesOut` | src/harness/run-store.ts:157-163 | one that started no later than that write never takes it over |
| `AppendLock.RoundsTakeTime` | src/harness/run-store.ts:163 | round i looks at the file no earlier than i sleeps after the start |
| `Agents.ScriptedAgent.Next` | src/harness/agents.ts:35-50 | a call answers the step at the later of its own position and the log's, "script exhausted" for a blank step and beyond the end, and advances past it |
| `Agents.SetupAgent.Next` | src/harness/agents.ts:52-64 | a call plays the setup step the log calls for unless it is blank, and otherwise hands over to the wrapped agent, scripted or not, and to it alone |
| `Agents.SetupThenScriptIsOneScript` | src/harness/agents.ts:35-64 | on every call history with arbitrary logs, setup steps in front of a script with that offset answer as one script over the concatenated steps, if and only if no setup step is blank or the script only ever answers "script exhausted" |
| `Agents.BlankStepShifts` | src/harness/agents.ts:58-61 | a call history on which a blank setup step makes the answers differ from the one script |
| `Agents.SameAnswersFrom` | src/harness/agents.ts:52-64 | from any positions where the two hidden indices stand for the single one, all later answers agree |
| `Agents.BehindLogAnswersNextStep` | src/harness/agents.ts:40-42 | a script that is not ahead of the log answers exactly the step after the messages in the log |
| `Agents.SetupAnswersNextStep` | src/harness/agents.ts:35-64 | setup steps and script, neither ahead of the log, answer exactly the step after the messages in the log, and stay so unless a setup step is blank |
| `Events.AssistantCountOfConcat` | src/harness/loop.ts:392-394 | the messages of a log in two parts are counted additively |
| `HarnessLoop.HarnessRun.Run` | src/harness/loop.ts:109-309 | whatever agents, tools, commands, signals and pauses do and however the log file it finds ends, an invocation only appends, its entries are a complete word of the grammar, all of them readable but for a first one that joins an unfinished line; its observations and its preparation, verification, evaluation and reviewer results are exactly the outcomes of what ran; and its summary is the finish status, the whole log's length and the last results in that word |
| `HarnessLoop.HarnessRun.Append` | src/harness/loop.ts:74-83 | one more entry at the end of the log file, with everything known about it kept in step |
| `HarnessLoop.HarnessRun.Open` | src/harness/loop.ts:109-124 | a first invocation opens with message, metadata and policy, a resumed one with one resume entry; iterations count on from the log as it was found, and only when resumed |
| `HarnessLoop.HarnessRun.TakeTurn` | src/harness/loop.ts:136-183 | a round ends with exactly one more message, or with a summary, or thrown where a cancel or error entry is what the grammar expects |
| `HarnessLoop.HarnessRun.AskAgent` | src/harness/loop.ts:167-173 | setup steps and scripts answer the step after all messages in the log; any other agent may emit retries and usage only |
| `HarnessLoop.HarnessRun.PlayStep` | src/harness/loop.ts:185-193 | all the step's actions and their observations, and the finish if the step asks for it |
| `HarnessLoop.HarnessRun.FinishRun` | src/harness/loop.ts:195-243 | verification, evaluation, reviewer and gates in that order, then a finish whose status the grammar admits |
| `HarnessLoop.HarnessRun.PrepareWorkspace` | src/harness/loop.ts:126-134 | a started entry, then a passed entry or the catch clause |
| `HarnessLoop.HarnessRun.GiveUp` | src/harness/loop.ts:246-270 | running out of iterations records its error and finishes as failed |
| `HarnessLoop.HarnessRun.Catch` | src/harness/loop.ts:271-309 | anything thrown ends in one cancel or error entry with the phase it happened in, and the matching finish |
| `HarnessLoop.HarnessRun.Conclude` | src/harness/loop.ts:331-341 | the summary agrees with the log it closes |
| `HarnessRuns.FinishIsLastAndOnly` | src/harness/loop.ts:151-309 | a finished invocation appended exactly one finish entry, as its last one |
| `HarnessWords.OpensAsConfigured` | src/harness/loop.ts:109-134 | an invocation opens with a resume, or with message, metadata if there is any and policy, and then prepares the workspace if it has to, with nothing left out unless it stops or is interrupted |
| `HarnessWords.ActionsAreRun` | src/harness/loop.ts:185-193 | behind a message that asks for n actions, as long as nothing interrupts, the next 2n entries are action, observation, action, and so on |
| `HarnessWords.ThenVerifiesIffFinishRequested` | src/harness/loop.ts:195-199 | what follows those is a verification if and only if the message asked for the finish, and never another action |
| `HarnessWords.ActionsAreConserved` | src/harness/loop.ts:185-193 | the actions asked for are the actions run and those still left; none is run that was not asked for, and an uninterrupted invocation has run them all |
| `HarnessWords.SuccessEndsInItsGates` | src/harness/loop.ts:195-226 | a successful invocation ends in a successful verification, evaluation and reviewer result as configured, the human gates that are required, and the status those options call for, with nothing in between |
| `HarnessWords.FailedGateFails` | src/harness/loop.ts:208-226 | a failed verification or evaluation is the last entry before the finish, and the run has failed |
| `HarnessWords.StatusIsExplained` | src/harness/loop.ts:142-309 | the entry before the finish decides between paused, cancelled, error, failed and success |
| `HarnessWords.GivesUpAtTheLimit` | src/harness/loop.ts:136-254 | an invocation gives up only when it has recorded exactly as many messages as it may |
| `HarnessWords.ResultsAreTheLast` | src/harness/loop.ts:198-242 | the summary's results are the last verification, evaluation, reviewer result and error of the word, and the gates it raised |
| `HarnessWords.MessageSaysWhatTheScriptDoes` | src/harness/agents.ts:43-47 | a message that plays a step has its text, its actions and its finish flag, each with its default, and "script exhausted" with a finish beyond the script |
| `HarnessRuns.ActionsAndObservationsAlternate` | src/harness/loop.ts:185-193 | every observation directly follows its action; an action without observation is the last thing before a cancel or error of that very action, or before a process stop |
| `HarnessRuns.MessagesAreTheAnswers` | src/harness/loop.ts:136-183 | message k of an invocation is the agent's k-th answer with the right iteration, and there are at most maxIterations |
| `HarnessRuns.SuccessWasVerified` | src/harness/loop.ts:195-226 | a successful finish is preceded, after the invocation's last message, by a successful verification, and evaluation if there is one; which successful status it is depends on the review and deployment options alone |
| `HarnessRuns.SucceedsIffGatesPass` | src/harness/loop.ts:208-225 | a finished invocation succeeded if and only if its recorded results pass the gates and no cancel or error came after them |
| `HarnessRuns.ReviewerDoesNotGate` | src/harness/loop.ts:209-214 | turning every reviewer result round leaves every invocation where it was |
| `HarnessRuns.PassedIffSucceededAndReviewed` | src/brain-benchmark.ts:398-405 | before human decisions, the benchmark counts a run as passed if and only if it succeeded and its reviewer did not fail |
| `HarnessRuns.ResumesContinueTheScript` | src/harness/loop.ts:109-183 | over any sequence of invocations, each ended by finish, pause, cancel, error or a process stop between or within entries and resumed with a fresh agent, message k of the whole log is setup step k while there are setup steps, whatever agent they are in front of, and then the script's next step if that agent plays one; its iteration is k + 1, or one more where its invocation opened on a message without a newline |
| `HarnessRuns.OneMoreInvocation` | src/harness/agents.ts:40-48 | one more invocation continues that, whatever the file it finds ends with and however its own last entry is cut |
| `HarnessRuns.IterationsReadInOrderIffNoneSkips` | src/harness/loop.ts:124-183 | the iterations in the log read 1, 2, 3, ... without gap or repeat if and only if none of its messages was written by an invocation that opened on a message without a newline |
| `HarnessRuns.NoUnendedMessageNoGap` | src/harness/loop.ts:124-183 | so they do whenever no process stops between the text of a message and its newline |
| `HarnessRuns.UnendedMessageSkipsAndRepeats` | src/harness/loop.ts:109-183 | a run of three invocations whose two messages both carry iteration 2 |
| `HarnessRuns.MessagesOfWritten` | src/harness/loop.ts:109-124 | whatever a log file ends with, an invocation never loses a message of its own that was written entirely |
| `HarnessRuns.MessagesOfConcat` | src/harness/loop.ts:392-394 | the messages of a log in two parts are those of the parts in order |
| `ModelUsage.SummarizeModelUsage` | src/harness/loop.ts:364-380 | one pass over the log yields its usage, and nothing if it records no request |
| `ModelUsage.UsageOfConcat` | src/harness/loop.ts:364-385 | requests and tokens are a homomorphism from log concatenation to addition |
| `ModelUsage.OtherEntriesDoNotCount` | src/harness/loop.ts:371 | the totals depend on the usage entries alone |
| `ModelUsage.TotalsAreSums` | src/harness/loop.ts:372-375 | requests are counted, and prompt, completion and total tokens are each the sum of what was reported of that kind, absent if nothing was |
| `ModelUsage.NegativeCostsDoNotCount` | src/harness/loop.ts:387-389 | the costs that count are exactly those reported that are not negative |
| `ModelUsage.CostIsNearTheExactSum` | src/harness/loop.ts:387-390 | the cost is within n/2 units of 1e-12 of the exact sum of the n accepted costs, and is absent only if there are none |
| `ModelUsage.WholeUnitsAddExactly` | src/harness/loop.ts:387-390 | costs that are whole multiples of 1e-12 are summed without any error |
| `Metric.RoundIsNear` | src/brain-benchmark.ts:622-624 | rounding moves a value by at most half a unit of 1e-12, and down by less than that |
| `Metric.RoundIsMonotone` | src/brain-benchmark.ts:622-624 | rounding never reverses an order |
| `Metric.RoundSeparates` | src/brain-benchmark.ts:622-624 | values at least a unit apart stay at least a unit apart |
| `Metric.RoundKeepsMultiples` | src/brain-benchmark.ts:622-624 | whole multiples of 1e-12 are left alone |
| `Metric.RoundsToTheNearest` | src/brain-benchmark.ts:622-624 | a value is rounded to a multiple of 1e-12 if and only if that is the nearest, halves going up |
| `Metric.RoundsToAtMostIff` | src/brain-benchmark.ts:475-481 | exactly when a rounded value does not exceed a threshold |
| `SignTest.ExactBinomialUpperTail` | src/brain-benchmark.ts:483-498 | the loops compute the sum of Pascal's numbers from the successes to the trials, over 2 to the number of trials; 1 for no trials or no successes |
| `SignTest.FactorialQuotient` | src/brain-benchmark.ts:491-495 | every factorial quotient is an integer, namely Pascal's number |
| `SignTest.WholeRow` | src/brain-benchmark.ts:491-497 | the full sum is 2 to the number of trials |
| `SignTest.TailsAreComplementary` | src/brain-benchmark.ts:483-498 | the two tails that a split leaves add up to the whole |
| `SignTest.ChooseIsSymmetric` | src/brain-benchmark.ts:493 | k successes are as likely as k failures |
| `SignTest.TailPascal` | src/brain-benchmark.ts:483-498 | tails satisfy Pascal's recursion in the number of trials |
| `SignTest.FactorialsUpTo` | src/brain-benchmark.ts:486-489 | the table built by the first loop holds the factorials |
| `SignTest.QuotientTerms` | src/brain-benchmark.ts:490-495 | the terms collected by the second loop are Pascal's numbers |
| `SignTest.MoreWins` | src/brain-benchmark.ts:220-221 | one more win never raises the rounded p-value |
| `SignTest.MoreLosses` | src/brain-benchmark.ts:220-221 | one more loss never lowers it |
| `SignTest.NoLeadNoSignificance` | src/brain-benchmark.ts:220-221 | without a lead of two wins it is at least one half |
| `SignTest.SignificanceIsTheTail` | src/brain-benchmark.ts:220-221 | what is reported is the tail of the row over the whole row, to the nearest 1e-12 |
| `SignTest.FewerThanFiveAreNotEnough` | src/brain-benchmark.ts:140-151 | fewer than five discordant pairs never reach the default threshold of 0.05 |
| `SignTest.FiveWinsAreEnough` | src/brain-benchmark.ts:140-151 | five or more wins without a loss do |
| `Benchmark.RunBenchmark` | src/brain-benchmark.ts:180-258 | decides exactly on non-empty case lists in which no id and no summary is reused and every case compares like with like, on all of their cases; otherwise reports the first check that the first faulty case fails |
| `Benchmark.InputsInOrder` | src/brain-benchmark.ts:184-208 | the cases decided on are the inputs in order, baseline against candidate, and so are the ids and summaries compared |
| `Benchmark.FaultNamesTheFirstProblem` | src/brain-benchmark.ts:185-207 | each fault names the first thing that is wrong with a case, in the order of the checks |
| `BenchmarkDecision.DecisionIff` | src/brain-benchmark.ts:212-258 | promoted if and only if there are enough cases, the pass rate is better by enough, it wins more than it loses, the tail of the sign test is small enough, and neither cost nor tokens nor duration has grown beyond its threshold or is missing where required; otherwise rejected if and only if the pass rate is lower, it loses more, or one of the three has grown too much |
| `BenchmarkDecision.EfficiencyGateIff` | src/brain-benchmark.ts:428-473 | an efficiency gate passes if and only if too few cases report it and it is not required, or the ratio of the means is within the threshold; it is a regression if and only if enough report it and it is not |
| `BenchmarkDecision.GrowthIsARegression` | src/brain-benchmark.ts:617-620 | growth of the mean beyond the threshold by 1e-12 is a regression, growth up to it is none |
| `BenchmarkDecision.GrowthIsRejected` | src/brain-benchmark.ts:253-258 | a candidate that grows like that in cost, tokens or duration is rejected, whatever it wins |
| `BenchmarkDecision.DeltaIsTheDifference` | src/brain-benchmark.ts:222 | the second rounding of the pass-rate delta changes nothing |
| `Benchmark.OutcomesAreConserved` | src/brain-benchmark.ts:212-220 | wins minus losses is candidate passes minus baseline passes, wins and pass ties are the candidate's passes, losses and pass ties the baseline's, and the four outcomes add up to the cases |
| `Benchmark.SwapExchangesOutcomes` | src/brain-benchmark.ts:361-370 | exchanging the variants exchanges wins and losses |
| `Benchmark.PromotionIsAsymmetric` | src/brain-benchmark.ts:228-258 | what is promoted over its baseline is rejected when the two are exchanged under the same gates |
| `Benchmark.SignificanceImpliesDirection` | src/brain-benchmark.ts:228-232 | below a threshold of one half the significance gate implies a lead of two wins, and so the direction gate; at 0.05 or below it takes five discordant pairs |
| `Benchmark.DeltaHasTheSign` | src/brain-benchmark.ts:222 | up to 10^12 cases, the twice-rounded delta is positive, negative or zero as the passes differ |
| `Benchmark.RatesCollide` | src/brain-benchmark.ts:421 | beyond that, some two neighbouring pass counts have the same rounded rate |
| `Benchmark.SignIsKeptIffCasesFit` | src/brain-benchmark.ts:222 | the sign is kept for all pass counts if and only if there are at most 10^12 cases |
| `Benchmark.PassRateGateNeedsWins` | src/brain-benchmark.ts:230 | at threshold zero the pass-rate gate means at least as many wins as losses, and a positive one demands more |
| `Benchmark.AcceptableSnoc` | src/brain-benchmark.ts:184-207 | one more case is acceptable exactly when its id and its two summaries are new and it compares like with like |
| `ApiKeys.TenantPolicy.Create` | src/harness/server-api-keys.ts:110-142 | appends one key, or refuses and leaves the keys as they were |
| `ApiKeys.CreateGivesWhatIsRequested` | src/harness/server-api-keys.ts:122-128 | refused exactly for a short token, an expiry not in the future or a token that matches already; otherwise the one key appended works for the requested token and no other, until the requested expiry or for ever, for the requested actor, role, model key and id |
| `ApiKeys.TenantPolicy.Rotate` | src/harness/server-api-keys.ts:144-216 | appends the successor and shortens the one key selected, or refuses and leaves the keys as they were |
| `ApiKeys.RotateGivesWhatIsRequested` | src/harness/server-api-keys.ts:166-195 | not found or in conflict exactly when no active key or more than one is selected, refused otherwise exactly for the overlap, the token or the expiry; the successor works for the requested token and no other, until the requested expiry |
| `ApiKeys.TenantPolicy.Revoke` | src/harness/server-api-keys.ts:218-262 | removes exactly the selected keys and counts them |
| `ApiKeys.RevokeLeavesTheOthers` | src/harness/server-api-keys.ts:242-247 | a key is left if and only if it was there and is not selected |
| `ApiKeys.SelectorsMeanWhatTheySay` | src/harness/server-api-keys.ts:242-244 | revoking by id, by actor, and by actor and role leaves exactly the keys with another id, another actor, another actor or role |
| `ApiKeys.TokensStayExclusive` | src/harness/server-api-keys.ts:122-129 | in every run of creates, rotates and revokes under a clock that never goes back, from keys without start dates that satisfy it, no token matches two active keys at the present or any later time |
| `ApiKeys.CreateKeepsExclusive` | src/harness/server-api-keys.ts:122-129 | a create, let through or refused, keeps that |
| `ApiKeys.RotateKeepsExclusive` | src/harness/server-api-keys.ts:167-195 | so does a rotate, although the old key stays active for the overlap |
| `ApiKeys.RevokeKeepsExclusive` | src/harness/server-api-keys.ts:240-248 | so does a revoke |
| `ApiKeys.CreateIsExclusiveIffNoneScheduled` | src/harness/server-api-keys.ts:122-129 | with start dates, a create that is let through keeps it if and only if no key bearing the token is scheduled to start while the new key is active |
| `ApiKeys.RotateIsExclusiveIffNoneScheduled` | src/harness/server-api-keys.ts:167-195 | so does a rotate, with the old key ending when the overlap does |
| `ApiKeys.AppendIsExclusiveIffNoneScheduled` | src/harness/server-api-keys.ts:125-128 | a key added to others none of which matches its token now is unambiguous if and only if none of them is scheduled to start with that token during its life |
| `ApiKeys.StartDateLetsTokenTwice` | src/harness/server-api-keys.ts:125-127 | a token given out twice: a waiting key and a new one, both active once the first one's date has come |
| `ApiKeys.StartDateLetsTokenTwiceByRotation` | src/harness/server-api-keys.ts:183-193 | the same by a rotation of another key to the waiting key's token |
| `ApiKeys.OldKeysWorkToo` | src/harness/server-auth.ts:179-183 | a key that carries its token itself works for that token and no other, while it is active |
| `ApiKeys.RotationHandsOver` | src/harness/server-api-keys.ts:167-195 | the one key selected works exactly as before until the overlap ends and never after, and keeps all else, its id included; all others are untouched; the successor is active at once for the same actor, role and model key and names its predecessor |
| `ApiKeys.ExpiringShortensLife` | src/harness/server-api-keys.ts:179-182 | rotation never lengthens a key's life: the new expiry is the earlier of the two |
| `ApiKeys.Candidates` | src/harness/server-api-keys.ts:169-171 | exactly the positions of active keys that the selector picks |
| `ApiKeys.WithoutIsASelection` | src/harness/server-api-keys.ts:245-247 | what remains is a subsequence, and misses nothing that was not selected |
| `ApiKeys.RequestKeepsLineal` | src/harness/server-api-keys.ts:176-195 | each request keeps ids unique and every predecessor still present before its successor |
| `ApiKeys.LineagesStayOrdered` | src/harness/server-api-keys.ts:176-195 | so does every run, whatever is revoked in between |
| `ApiKeys.Ancestors` | src/harness/server-api-keys.ts:282 | following a lineage visits strictly earlier keys, so it terminates |
| `RedisBackup.WriteRedisBackup` | src/harness/disaster-recovery.ts:449-475 | the file holds one record for every scanned key that still had a dump, in order, and their number is returned |
| `RedisBackup.ValidateRedisBackup` | src/harness/disaster-recovery.ts:477-483 | accepts exactly the files with the expected prefix, keys under it, no key twice and no negative time to live |
| `RedisBackup.Redis.RestoreBackup` | src/harness/disaster-recovery.ts:485-521 | the target prefix is cleared and then holds what the records say; restored plus skipped is their number |
| `RedisBackup.Redis.RestoreArchive` | src/harness/disaster-recovery.ts:285-294 | a refused archive leaves the target as it was; an accepted one always passes the count gate after the restore |
| `RedisBackup.RestoreLeavesTheBackup` | src/harness/disaster-recovery.ts:485-521 | under the target prefix are exactly the unexpired records, renamed without collision, with their dumps and with their time to live counted from the backup's creation; other keys are untouched |
| `RedisBackup.RestoredRecordLands` | src/harness/disaster-recovery.ts:506-515 | no later record overwrites an earlier one |
| `RedisBackup.RenameIsInjective` | src/harness/disaster-recovery.ts:513 | two keys never get the same new name |
| `RedisBackup.RenameReplacesThePrefix` | src/harness/disaster-recovery.ts:513 | the target prefix takes the place of the source prefix and the rest of the key stays |
| `RedisBackup.RenameMoves` | src/harness/disaster-recovery.ts:513 | every new name is under the target prefix |
| `RedisBackup.RestorableIffScannedOnce` | src/harness/disaster-recovery.ts:540-545 | a backup can be read back if and only if no dumped key was scanned twice |
| `RedisBackup.ScannedTwiceIsRefused` | src/harness/disaster-recovery.ts:543 | a database with one key and a scan that yields it twice: the backup is refused |
| `RedisBackup.ExpiringKeyIsRestoredForEver` | src/harness/disaster-recovery.ts:461-464 | a key with an expiry whose PTTL reads 0, or -2 behind a dump, comes back without one |
| `RedisBackup.RestoredLifetime` | src/harness/disaster-recovery.ts:463-464 | a key is restored with an expiry, never later than its own, if and only if it had one and time left at its PTTL reading; otherwise for ever |
| `RedisBackup.ReadingReturns` | src/harness/disaster-recovery.ts:460-466 | one dumped key comes back with its dump: not for longer than it had if it had time left at its PTTL reading, and for ever otherwise |
| `RedisBackup.RoundTrip` | src/harness/disaster-recovery.ts:449-521 | backing up one prefix, each dumped key scanned once, and restoring it under another brings back every key that was there to be dumped, whatever its PTTL reading, unless its expiry has passed, and leaves nothing else under the target prefix |
| `ShellWords.QuotedValueIsOnePart` | src/harness/coder-executor.ts:582-584 | wherever a word may begin or go on, and whatever follows, the shell reads a quoted value as exactly that value, all of it literal |
| `ShellWords.EscapeReadsBack` | src/harness/coder-executor.ts:583 | inside single quotes, an escaped value and the closing quote add exactly the value |
| `ShellWords.QuotingIsInjective` | src/harness/coder-executor.ts:582-584 | different values are quoted differently |
| `ShellWords.QuotedListReadsBack` | src/harness/coder-executor.ts:565 | a blank-joined list of quoted values lexes back to the list |
| `ShellWords.MkdirReadsBack` | src/harness/coder-executor.ts:564-566 | mkdir is given exactly the distinct paths, each as one literal argument |
| `ShellWords.Unique` | src/harness/coder-executor.ts:565 | the paths without repetition, none lost |
| `ShellWords.AssignmentsReadBack` | src/harness/coder-executor.ts:201-208 | a prefix of assignments lexes back to the names and values |
| `ShellWords.InnerShellReadsBack` | src/harness/coder-executor.ts:139-141 | the inner shell's last argument is the command itself, whatever the environment |
| `ShellWords.WorkspaceCommandReadsBack` | src/harness/coder-executor.ts:210-217 | without a git credential, the workspace's shell reads the command's own tokens when there is no environment, and otherwise one inner shell that is given the command |
| `ShellWords.RemoteCommandReadsBack` | src/harness/coder-executor.ts:173-188 | the remote shell changes into exactly the given directory and then reads the command's own tokens |
| `ShellWords.NestedCommandArrivesUnchanged` | src/harness/coder-executor.ts:139-141 | through both quotings, directory and command arrive character for character |
| `ShellWords.PlainText` | src/harness/executor.ts:278-283 | text without special characters, such as a safe name, is read as itself |
| `ContentsStore.ContractState.PutContents` | src/harness/agent-git-service-contract-server.ts:234-265 | the answer and the whole new state of one PUT, refusals included |
| `ContentsStore.PutSucceedsIff` | src/harness/agent-git-service-contract-server.ts:235-253 | a PUT succeeds if and only if it has content and names the stored sha, or none where nothing is stored; an update exactly when something was; refused for its content only when the sha is right |
| `ContentsStore.PutThenGet` | src/harness/agent-git-service-contract-server.ts:216-252 | what was PUT is what a GET finds, under the sha answered; every other path, and after a refusal every path, is as it was |
| `ContentsStore.RunsKeepInv` | src/harness/agent-git-service-contract-server.ts:234-265 | in every run the store is the successful PUTs replayed in order, each PUT to an existing path named the sha of the one right before it, and no sha is issued twice |
| `ContentsStore.PutKeepsInv` | src/harness/agent-git-service-contract-server.ts:234-265 | every single request, refused or not, keeps that |
| `ContentsStore.ReplayHasTheLast` | src/harness/agent-git-service-contract-server.ts:250-252 | a path holds what its last successful PUT stored |
| `ContentsStore.SameShaSameContent` | src/harness/agent-git-service-contract-server.ts:250-252 | a sha seen twice under a path, however far apart, means the same content |
| `ContentsStore.SuccessSawTheLatest` | src/harness/agent-git-service-contract-server.ts:235-249 | an edit succeeds if and only if it had seen what is stored right before it and leaves some content |
| `ContentsStore.NoUpdateIsLost` | src/harness/agent-git-service-contract-server.ts:212-265 | however many clients read, modify and write concurrently, the content of each path is the successful modifications applied one after the other |
| `ContentsStore.PutsGrow` | src/harness/agent-git-service-contract-server.ts:250-252 | the history of successful PUTs only ever grows |

## Left out

- JSON printing and parsing: records are abstract, with the one fact that a strict prefix of a record, or a record behind other text on its line, does not parse.
- The database-backed event store (`src/harness/run-store.ts:111-138`): its numbers come from the database.
- Time stamps and event types of records: a record's body is opaque.
- AppendProtocol.LogIsTheAppends: once a part of a record has been left behind, or a caller names another run or passes no data, log and appends need not be equal; what the log then holds is `FinishedLinesAreTheKeptAppends` and `ReaderSeesEverySeqOnce`.
- HarnessLoop.HarnessRun.Run: nobody else writes to the log while an invocation is at work, and neither `append` nor `onEvent` throws.
- Contents of messages other than their text and counts: plans, action inputs, observations, the iteration recorded with a cancel or error, requester fields, and the writing of `summary.json`.
- Floating-point rounding: the p-value is computed from exact quotients where the code adds up logarithms, and costs and rates are exact reals.
- The manifest's, summaries' and gate configuration's own validation in the benchmark, token totals derived from partial usage, and human review decisions in `summaryPassed`.
- Validation of identifiers, actors, roles, environment names and time stamps in API key requests, the audit trail, and two requests interleaving: each handler's read and write of the policy is one step.
- PostgreSQL, workspace archives, encryption and signatures of a backup; base64; the moment at which Redis applies RESTORE is the moment the code looked at the clock.
- RedisBackup.Redis.RestoreBackup: says nothing of the database after a refusal; `RestoreArchive` never lets it come to that.
- RedisBackup.ValidateRedisBackup: the header's version and time stamp and records that are not well-formed JSON are not modelled.
- Here-documents, reserved words, expansions and the git credential wrapper in shell commands, and whatever ssh does when it joins its arguments: the lexer covers tokens and quoting.
- URL decoding and the joining of owner, repository and path into one key of the contents store; the other routes of that server.
- Dashboard, desktop application, command line, network clients, OIDC, provisioning and scoring: interface code, or settled by reading one branch.
