# Verified model of the alpha backtest workflow

A Dafny model of the control code that drives a browser through alpha backtests, with proofs of
what that code keeps over every run. The page, the clock, the file system, the language model and
the platform are arbitrary: whatever they answer, the statements below hold.

`dafny verify dfyconfig.toml` checks the whole project.

| module | what it models |
|---|---|
| `FastExpression`, `FastExpressionText`, `FastExpressionTree` | the call finder, argument splitter and operator table; what they do on any text; they undo the printer of expression trees |
| `Workflow` | the thirteen-state machine as a step function, its log, its trace, and its termination measure |
| `Simulate`, `Attempt` | the handlers and recovery over a page that a reload blanks, the machine as the program runs it, and the outer loop of sessions and browser restarts |
| `Dashboard`, `DashboardAgrees` | the worker table folded from the shared event log, and the proof that it shows the machine's state |
| `WaitPasses`, `WaitResult`, `Success` | what the passes over a result page show and call for; the polling loops that decide whether a visible result, and a visible success, may be believed |
| `TemplateHistory`, `TemplateLoop` | histories of events, read by their positions; the loop over one template, whose counters, keys and flags are functions of its history |
| `FileLock`, `SafeJson`, `Utf8Text` | the lock-file protocol over all interleavings; crash-safe JSON files, and what counts as text in them |
| `Export`, `Archive`, `Import` | resumable and filtered log export, volumes and their recombination, incremental import, list merge, staged restore |
| `CandidatePool` | the bounded pool: dedup, rank, trim, re-annotate |

Code that changes state is a class or a method with loops, proved against a function or a machine;
the properties are then lemmas about that function or machine.

## Where the code does less than its names or comments suggest

- A quoted string that contains `name(` is scanned as a call; the scanner is right on exactly the trees without such strings (`ScannerUndoesPrinterIff`).
- The dashboard's restart counter counts log rows that name a restart, not restarts: a run failing in INIT or FINISHED shows two, a failed quality check one, a page recovery none (`RestartCountOfRun`).
- Among holders bounded by some number of seconds the file lock excludes if and only if that bound is within the stale limit (`ExcludesIff`); a lock abandoned by a dead process lets even two live, prompt processes in at once (`AbandonedLockAdmitsTwo`).
- A JSON backup is behind or torn if the process dies in one of three operations of a write in which nothing else fails (`BackupCurrentIff`); what it is worth after any other write is in `BackupGoodIff`.
- A JSON file that is not UTF-8 is not treated as corrupt: the read raises, nothing is moved away and the backup is not tried (`CorruptionIsRepairedIff` is exact, `NotTextIsNeverRepaired`). A backup torn inside a character raises in the same way. An import that meets such a file ends there, without setting it aside (`MergeJson`).
- The no-progress breaker can never trip on a quality miss, because every error-free result resets it first (`FailsOnBudget`, in the contract of `ProcessTemplate`).
- The name order of archive parts is their number order only up to 999 parts (`RecombinesIff` is exact). Old parts are not deleted, so an archive split again into fewer parts does not come back (`RecombinesOverOldPartsIff` is exact).
- A restore that lists one path twice overwrites the backup with the new content (`BackedUpIff` is exact). A replace that fails is not noticed: the file stays old and is reported as imported.
- A filtered export resumed from recorded progress would lose lines whenever progress ran ahead of the buffered output (`StaleProgressLosesLines`, `FilteredResumeIff`); it is right because the caller resets progress before each file.
- A filtered export matches the two halves of a line apart if the line was half written when it was first read (`HalfLineIsMissed`; `FilteredIff` is exact).
- The second acceptance rule for a settled page is dead code: the first one takes every case of it (`JudgeVisible`).
- List items are told apart by joined texts, so records whose fields themselves hold the joining bar can be taken for one (`SamePairIff` is exact).
- The pool ranks a new candidate as if it had no diversity, so the stored order can be wrong as soon as it is stored (`StoredOrderMayBeWrong`) and can be trusted only when the rows are far enough apart (`StoredOrderIff` is exact); `SelectNextParent` ranks again and is not affected.
- A strongly negative self-correlation blocks a row but costs it no penalty (`BlockedWithoutPenaltyIff`).

## Model

| member | source | states |
|---|---|---|
| FastExpression.ExtractParenthesized | wq_workflow/fast_expression.py:272-291 | the character loop returns the text up to the parenthesis that closes the one at `open`, skipping strings, or the rest of the text |
| FastExpression.IterFunctionCalls | wq_workflow/fast_expression.py:234-241 | the loop over matches yields exactly the calls of the leftmost non-overlapping matches, except an opening parenthesis at the very end |
| FastExpression.SplitArgs | wq_workflow/fast_expression.py:244-269 | the splitting loop yields the stripped non-blank pieces between top-level commas |
| FastExpression.ValidateCalls | wq_workflow/fast_expression.py:210-226 | the call loop reports the first problem, in source order, of the calls found |
| FastExpressionText.ExtractedMeans | wq_workflow/fast_expression.py:272-291 | on any text the arguments end at the first parenthesis outside quotes that leads back to depth zero, or with the text if there is none |
| FastExpressionText.CallAtIff | wq_workflow/fast_expression.py:236-236 | a call begins exactly where a name that does not end a longer one is followed, blanks aside, by an opening parenthesis |
| FastExpressionText.AllCallsAreFound | wq_workflow/fast_expression.py:234-241 | on any text the finder lists the calls at all such positions, in order, none twice, those inside other calls included |
| FastExpressionText.SplitMeans | wq_workflow/fast_expression.py:244-269 | on any text the splitter yields the pieces between the commas outside quotes and parentheses, stray closing parentheses counting for nothing |
| FastExpressionText.PieceMeans | wq_workflow/fast_expression.py:262-268 | a piece is what stands between leading and trailing blanks, and is dropped if that is nothing |
| FastExpressionText.FirstProblemMeans | wq_workflow/fast_expression.py:210-226 | the problem of the first call that has one is reported, and nothing if and only if none has |
| FastExpressionText.CallCheckMeans | wq_workflow/fast_expression.py:211-226 | exactly when each of the five problems is reported |
| FastExpressionText.SafeWeightIff | wq_workflow/fast_expression.py:302-306 | a weight is safe if and only if, blanks and capitals aside, it is the number one, a rank of something without a closing parenthesis, or the one nested form that is listed |
| FastExpressionTree.ScannerUndoesPrinter | wq_workflow/fast_expression.py:234-291 | on the text of a tree whose strings hold no `name(` the finder lists exactly the call nodes in source order, and in every tree the splitter returns exactly each node's printed arguments |
| FastExpressionTree.SplitUndoesPrint | wq_workflow/fast_expression.py:244-269 | splitting any printed argument list, trailing comma or empty list included, gives back the printed arguments |
| FastExpressionTree.CloseSkips | wq_workflow/fast_expression.py:272-291 | reading past the text of any expression leaves the parenthesis depth and the quote state unchanged |
| FastExpressionTree.PiecesSkip | wq_workflow/fast_expression.py:249-265 | the text of an expression holds no comma that splits, at any depth |
| FastExpressionTree.ScannerCounts | wq_workflow/fast_expression.py:234-241 | on the text of any tree the finder lists the call nodes, in order, and besides them exactly the matches inside strings |
| FastExpressionTree.ScannerUndoesPrinterIff | wq_workflow/fast_expression.py:234-241 | the finder lists exactly the call nodes if and only if no string of the tree holds `name(` |
| FastExpressionTree.ValidatorDecidesTree | wq_workflow/fast_expression.py:210-226 | the call loop accepts the text of such a tree if and only if every call node is approved and its number of argument subtrees is in range |
| FastExpressionTree.AcceptedTreeIsAcceptable | wq_workflow/fast_expression.py:210-226 | whatever its strings hold, a tree whose text is accepted has only such nodes |
| FastExpressionTree.FirstProblemOnNodes | wq_workflow/fast_expression.py:210-226 | the problem reported on the text is the first problem among the tree's nodes |
| Workflow.TraceIsPrefix | wq_workflow/workflow_state.py:126-150 | at every moment of every run the trace is a prefix of the state order that stops at the current state, and it is the whole order if and only if the run succeeded |
| Workflow.RunMeans | wq_workflow/workflow_state.py:126-201 | the number of handlers that returned, the number of failures since and the last reply determine where the machine is: running, recovering, failed with that state's recovery and level, or done after thirteen returns |
| Workflow.FailedMeans | wq_workflow/workflow_state.py:52-66 | a failed run names the state its returned handlers lead to and asks for that state's level, or for a rebuild after a non-recoverable error |
| Workflow.EveryStepGoesDown | wq_workflow/workflow_state.py:131-201 | every step but in-state progress lowers a lexicographic measure, so every run ends |
| Workflow.RetriesOnlyOnPage | wq_workflow/simulate.py:904-927 | with the repository's recovery handler, in-place retries happen only in WRITE_CODE, WRITE_NAME and CLICK_RUN, at most once each, and a run awaits at most nineteen times |
| Simulate.Session.FsmWriteCode | wq_workflow/simulate.py:468-472 | returning means the editor holds this alpha's code, the same characters in the same order, blanks aside, and that both login checks found no need to log in; no failed call is swallowed and none is made up |
| Simulate.Session.FsmWriteName | wq_workflow/simulate.py:474-478 | returning means the name is written wherever the page has a name field, and unless it is known to have none, the editor still holds the code, and both login checks passed |
| Simulate.Session.FsmClickRun | wq_workflow/simulate.py:480-508 | Run is clicked at most once per call, only after a login check that passed, and every click finds in the editor this alpha's code, blanks aside, and its name; returning means it was clicked and that every awaited call came back |
| Simulate.EditorMatchesIff | wq_workflow/browser_ops.py:393-400 | the program's check accepts a text if and only if it holds the same non-blank characters in the same order as the code, which is not all blank |
| Simulate.ExtraTextIsRejected | wq_workflow/browser_ops.py:393-400 | if a text passes the check, the text with something put in anywhere passes if and only if that is all blank |
| Simulate.CodeMatchesItself | wq_workflow/browser_ops.py:393-400 | a code passes its own check if and only if it is not all blank |
| Simulate.Session.RestorePageForRetry | wq_workflow/simulate.py:930-942 | after a reload blanked the page, returning means everything the retried state relies on is in place again |
| Simulate.Session.FsmRecover | wq_workflow/simulate.py:904-927 | recovery returns only at the two page levels, with the page ready for the retried state, and never clicks Run |
| Simulate.Session.Handle | wq_workflow/simulate.py:444-508 | a handler that returns leaves the page ready for the next state, and only CLICK_RUN clicks; it returns only if every awaited call did, and always if nothing was wrong on the page |
| Attempt.WorkflowFSM.Receive | wq_workflow/workflow_state.py:131-201 | what the program has logged and traced advances exactly as the step machine's log and trace do |
| Attempt.WorkflowFSM.RunState | wq_workflow/workflow_state.py:131-201 | one state, with all its retries, is a piece of a machine run; CLICK_RUN clicks at most twice; a failed state adds nothing to the trace |
| Attempt.WorkflowFSM.Run | wq_workflow/workflow_state.py:126-130 | a whole run is a run of the step machine and ends as it does; every click of Run, first or retried, finds in the editor this alpha's code, the same characters in the same order, blanks aside, and its name written where a name field exists; on a page where nothing is wrong the run succeeds |
| Attempt.PlatformErrorsAreNonRecoverable | wq_workflow/simulate.py:349-411 | a reported failure does not blame the page if and only if it is a non-recoverable state error whose message does not |
| Attempt.NoRunAsksForKill | wq_workflow/simulate.py:328-411 | no end of a run asks for the browser to be killed; a state error asks for the level of the failing state, or for a rebuild if it is non-recoverable |
| Attempt.ResultIsReported | wq_workflow/simulate.py:321-421 | the result of a run in the machine's terms: success if and only if it is done and the browser lives; a lost browser wins over success and cancellation and asks for a restart; a raised recovery and a watchdog timeout ask for a rebuild; a failure that cannot be captured is not reported |
| Attempt.BlamesPageIff | wq_workflow/simulate.py:3415-3421 | a text is an automation error if and only if it holds the automation mark and does not begin with that of a final correlation |
| Attempt.RunAlphaFsm | wq_workflow/simulate.py:236-421 | a reported result is that of a whole run of the step machine, as `ResultIsReported` spells out: success if and only if it is done and no browser failure was seen; at most two clicks, all on the right code and name, and at least one if the run is done; on a page where nothing is wrong it is |
| Attempt.Judged | wq_workflow/simulate.py:194-233 | the two budget counters decide, after each result, exactly whether the attempt stops with it or goes on |
| Attempt.ContinuesBounds | wq_workflow/simulate.py:205-233 | while an attempt goes on it has seen at most two page failures and one browser failure, and nothing else |
| Attempt.RunSession | wq_workflow/simulate.py:178-204 | a session that is opened is closed whatever happens in it, and no result asks for a kill |
| Attempt.RunPlatformBacktestAttempt | wq_workflow/simulate.py:162-233 | an attempt opens at most four sessions, never two at once, closes each, and restarts the browser exactly once for every survived result that asks for it, at most once in all, never killing it; it returns the first result that is a success, does not blame the page, or is the third below or the second at the level of the browser, and no result only if a session was lost or a restart failed; where nothing goes wrong the first session's success is returned |
| Dashboard.FoldEvent | ui/state_collector.py:126-166 | one event updates the entry of the alpha it names as specified and no other entry |
| Dashboard.CollectWorkers | ui/state_collector.py:108-200 | each worker shown, its task, runtime, restart count and health, is determined by the subsequence of events that name it, whatever the interleaving |
| Dashboard.FoldStep | ui/state_collector.py:116-166 | a row of the shared log belongs to the subsequence of the alpha it names and leaves every other subsequence alone |
| Dashboard.NoEntryIff | ui/state_collector.py:126-166 | a row leaves no entry if and only if there was none to touch or it is the exit from the state shown |
| Dashboard.EntryHistory | ui/state_collector.py:126-166 | an entry goes back to the last row that enters, fails or times out, or a later one that found none; its start, its fatal flag and its last event are read off that row and the last one that counts |
| Dashboard.WorkerOfRows | ui/state_collector.py:167-200 | runtime and health of a shown worker, read off those two rows: FATAL, RESTARTING, STALLED and RUNNING each with its exact condition |
| DashboardAgrees.StepAgrees | ui/state_collector.py:126-166 | if the entry shows the machine's state before a step, it does so after the rows of that step |
| DashboardAgrees.RunAgrees | ui/state_collector.py:116-166 | whatever entry earlier runs left, after the log of a run prefix the entry shows that run's current state |
| DashboardAgrees.FoldRefinesMachine | ui/state_collector.py:116-166 | in any interleaving of several alphas the entry is the machine's state: the current state while it executes, the policy's recovery state while it recovers or after recovery raised, fatal after a state error, none after success |
| DashboardAgrees.FoldConcat | ui/state_collector.py:113-166 | folding a log in two parts is folding it in one |
| DashboardAgrees.TableShowsMachine | ui/state_collector.py:167-200 | a worker is shown if and only if the machine has not succeeded and gave a sign of life recently; its task is then the machine's state or recovery state, and its health is FATAL if and only if the machine failed with an error |
| DashboardAgrees.LastSeenIsLastSign | ui/state_collector.py:162-171 | an alpha's age in the table is that of its last event that is recent enough to count and not an exit |
| DashboardAgrees.RestartCountOfRun | ui/state_collector.py:124-125 | how many restart rows a run logs, as a function of how it ended |
| DashboardAgrees.FoldCountsRestarts | ui/state_collector.py:124-125 | the fold's restart counter is the number of restart rows of the run's log |
| WaitResult.RunIsUniformAndMaximal | wq_workflow/simulate.py:2143-2184 | the stability counter is the length of the longest run of equal concrete fingerprints at the end |
| WaitResult.Observe | wq_workflow/simulate.py:2143-2184 | one observation moves the counters as it moves that run length |
| WaitResult.CheckWindow | wq_workflow/simulate.py:2141-2184 | a pass at which the run looked complete is accepted if and only if the page is clean, the window is full and the result is ready, and watched further if and only if only the window is missing |
| WaitResult.ReadyIff | wq_workflow/simulate.py:2746-2776 | a view is ready if and only if it is concrete and, where an old fingerprint exists, has a different one; where none exists, the run was seen to start, a progress of 15 percent was read and 20 seconds have passed, and where a result had been shown it has a fingerprint |
| WaitResult.WindowFullIff | wq_workflow/simulate.py:2143-2184 | the counter and its start time say that the window is full if and only if enough passes that looked complete, one of them a window old, have since shown nothing but one clean fingerprint |
| WaitResult.ProgressMeans | wq_workflow/simulate.py:2064-2068 | the progress taken over and its time are those of a pass that moved by a tenth or more, and every later read stayed within a tenth of it |
| WaitResult.JudgeVisible | wq_workflow/simulate.py:2192-2266 | exactly when a visible result is taken at once, given up as an old one, or watched, and for how long the loop then sleeps |
| WaitResult.OnePass | wq_workflow/simulate.py:2060-2266 | a pass gives exactly the answer it calls for: which login, start and platform errors, which full window with a believable result, which result taken at once and which old result end the wait, and otherwise when the next pass is made |
| WaitResult.FinalRecovery | wq_workflow/simulate.py:2281-2316 | after the deadline a result is accepted if and only if it was fetched, is not blank and may be believed by the same rule, an observed start being required; otherwise the wait fails |
| WaitResult.WaitForBacktestFinished | wq_workflow/simulate.py:2033-2278 | the loop ends at the first pass that calls for an answer, with exactly that answer, or at the deadline with what final recovery finds; passes follow each other as each one asks, none after the deadline. In particular it returns at the first pass with a full window and a believable result that no error comes before |
| WaitResult.AcceptedIsTrustworthy | wq_workflow/simulate.py:2033-2278 | on every path the old result is rejected, and without one to compare with the run was seen past 15 percent; with consistency validation on, a result that does not come from final recovery rests on a full window |
| WaitResult.MaxProgressWasRead | wq_workflow/simulate.py:2062-2064 | the remembered maximum bounds every progress read and was really read |
| Success.DetectMeans | wq_workflow/template_success_detector.py:34-133 | direct success holds if and only if the result is revealed, in scope, graded average or strong, with an explicit zero fail count; a candidate is such a result or one that shows a sign, and it is exact when the result is uncertain |
| Success.CanStabilizeIff | wq_workflow/simulate.py:857-864 | a second read can confirm a candidate if and only if it is a direct success or shows a sign other than a payload that parses |
| Success.Confirm | wq_workflow/template_success_detector.py:136-145 | confirming keeps the fail count and makes a success of exactly the candidates without failures |
| Success.StableTwice | wq_workflow/simulate.py:816-822 | the counter reaches two if and only if the last two reads are candidates with one non-empty fingerprint |
| Success.Weigh | wq_workflow/simulate.py:802-831 | one successful read is a success if and only if it is justified by itself or by the read before it |
| Success.StabilizeSuccessVisibility | wq_workflow/simulate.py:765-832 | whatever the pages read show, success is returned if and only if justified, at the first poll that justifies it, within four polls, and never with a non-zero fail count; otherwise the last read is returned, early only on a non-zero fail count or a first read that is no candidate; failed fetches count for nothing |
| TemplateLoop.RecallStep | wq_workflow/orchestrator.py:277-1000 | after every event every counter, key, flag, fingerprint and the pending mutation are the same functions of the longer history |
| TemplateHistory.CountersMean | wq_workflow/orchestrator.py:495-681 | each counter is the number of positions of certain events with no resetting event since: page errors since the last result or code error, unclear ones since the last certain result, syntax failures since the last result, skips since the last submission |
| TemplateHistory.KeyRunMeans | wq_workflow/orchestrator.py:1099-1121 | the breaker's count is the number of keyed events with the last key, no other key and no result after them |
| TemplateHistory.RepeatCountMeans | wq_workflow/orchestrator.py:577-584 | the repeat count is the number of platform errors with no result and no other, or empty, error text after them |
| TemplateHistory.RepeatedCodesAreLast | wq_workflow/orchestrator.py:577-595 | the codes kept with it are the last of all the codes rejected so far |
| TemplateHistory.SkippedMeans | wq_workflow/orchestrator.py:1139-1148 | the remembered fingerprints are exactly those the simulator skipped, the empty one aside |
| TemplateHistory.SkipLimitMeans | wq_workflow/orchestrator.py:446-450 | the flag that ends skipping is set if and only if some skip was at least the limit in a row |
| TemplateHistory.LastTriedMeans | wq_workflow/orchestrator.py:406-412 | the fingerprint that may not come next is that of the last submission or skip, unless that ended in an automation error or an unclear result |
| TemplateHistory.PendingMeans | wq_workflow/orchestrator.py:968-980 | a mutation is pending if and only if a miss accepted it and no skip, platform error or certain result has come since |
| TemplateHistory.RecentCodesMeans | wq_workflow/orchestrator.py:577-595 | the remembered repeat count and codes are the length and the last three codes of the current run of platform errors with one text |
| TemplateHistory.HardRecoveryEveryThird | wq_workflow/orchestrator.py:521-558 | the counter that triggers page hard recovery is the streak of automation errors modulo three, so it is due at every third one; the ninth in total ends the template instead |
| TemplateLoop.KeysStep | wq_workflow/orchestrator.py:1099-1121 | the remembered key and count stay the last key and the length of its run since the last result without an error |
| TemplateLoop.RepairLocally | wq_workflow/orchestrator.py:280-360 | placeholders and local syntax errors count against the breaker and the syntax budget |
| TemplateLoop.Regenerate | wq_workflow/orchestrator.py:362-412 | candidates blocked before submission touch no counter |
| TemplateLoop.SkipBacktest | wq_workflow/orchestrator.py:441-451 | a skipped expression is remembered, and the flag that ends skipping is set once the limit of skips in a row is reached |
| TemplateLoop.RetryLater | wq_workflow/orchestrator.py:495-557 | uncertain and automation errors are retried on the same code, each within its own budget; while the budget lasts, hard recovery happens if and only if it is due |
| TemplateLoop.RepairPlatformError | wq_workflow/orchestrator.py:558-652 | a platform error counts against the breaker and, if it is about syntax, the syntax budget; repeats and the last three codes are those of the current error |
| TemplateLoop.JudgeResult | wq_workflow/orchestrator.py:654-1000 | a result without an error resets the error counters; the iteration succeeds if and only if the platform's quality check or the template's own rule accepted it; an unclear one counts against the uncertainty budget only |
| TemplateLoop.Iterate | wq_workflow/orchestrator.py:277-1000 | an iteration is one event, the one its turn calls for: the first check that stops the code, or the verdict on its result; it succeeds if and only if the code was submitted and the result has no error and was accepted by quality or by template; it fails if and only if a budget is used up |
| TemplateLoop.EventExplained | wq_workflow/orchestrator.py:279-495 | in the turn's own words, exactly which placeholder, syntax error, correlation, known skip, repeated fingerprint or simulator advice stops the code, and which results count as success, miss, unclear, automation error and platform error |
| TemplateLoop.ProcessTemplate | wq_workflow/orchestrator.py:277-1018 | the run is the one the world's answers determine, event by event and code by code; it succeeds if and only if its last event is a submission whose result has no error and was accepted by quality or template, fails if and only if a budget is used up (nine page errors, nine unclear results, the syntax limit, one key eight times in a row) and names it, ends without code if and only if new code was needed and missing, and otherwise goes on to the iteration limit; the breaker trips only on placeholder, syntax and platform errors, and no submission is wasted |
| TemplateLoop.SkippedIsNeverSubmitted | wq_workflow/orchestrator.py:396-405 | an expression once skipped is never backtested later in that template |
| TemplateLoop.NeverTwiceInARow | wq_workflow/orchestrator.py:406-412 | a submission differs from the last fingerprint submitted or skipped unless that submission ended in an automation error or an uncertain result |
| FileLock.ExclusiveUnlessStaleUnlink | wq_workflow/safe_io.py:37-61 | as long as no stale unlink is executed, over every interleaving at most one process has the lock, and the lock file exists if and only if one does |
| FileLock.FileChangesOnlyBy | wq_workflow/safe_io.py:37-73 | the lock file is created anew, removed by a release or stale unlink, or stamped by the process that created this very file; nothing else touches it |
| FileLock.PromptHoldersExclude | wq_workflow/safe_io.py:37-73 | if every holder releases within a bound that is at most the stale limit of its last stamp, no stale unlink ever fires, the lock excludes, and the lock file exists if and only if someone holds it |
| FileLock.StepKeepsNobodyStale | wq_workflow/safe_io.py:63-73 | between prompt holders no step leads a process to judge the lock stale |
| FileLock.ExcludesIff | wq_workflow/safe_io.py:37-73 | among processes that hold the lock for at most `limit` seconds after a stamp, the lock excludes in every interleaving if and only if `limit` is within the stale limit |
| FileLock.SlowHolderIsOvertaken | wq_workflow/safe_io.py:63-73 | a holder slower than the stale limit, dead or not, can be joined inside by a second process |
| FileLock.AbandonedLockAdmitsTwo | wq_workflow/safe_io.py:63-73 | for every stale limit, one abandoned lock lets two live processes inside at once, however prompt they are |
| SafeJson.Store.SafeReplace | utils/safe_json.py:81-106 | the retry loop replaces if the file is busy fewer than five times, and otherwise changes nothing |
| SafeJson.Store.AtomicWriteJson | utils/safe_json.py:51-78 | the statements do to the disk what the write function says, wherever the process dies |
| SafeJson.Store.WriteWithBackup | wq_workflow/safe_io.py:115-139 | the same for the write with a backup before and after |
| SafeJson.WriteIsAtomic | utils/safe_json.py:51-106 | cut anywhere, a write leaves the main file holding the old payload or the whole new one, and a completed one the new |
| SafeJson.WriteCompletesIff | utils/safe_json.py:51-106 | a write completes if and only if it can be dumped, the file is busy fewer than five times and the process lives for all its operations |
| SafeJson.LastCommittedOrInFlight | wq_workflow/safe_io.py:115-139 | after any sequence of writes cut anywhere the main file holds one whole payload: the last committed, or one in flight after it |
| SafeJson.CompletedWriteIsBackedUp | wq_workflow/safe_io.py:115-139 | after a completed write whose second copy worked both files hold the payload |
| SafeJson.Store.Load | utils/safe_json.py:17-44 | the read gives the main file's value, raises, or moves the file away and gives what the backup comes to |
| SafeJson.CorruptionIsRepairedIff | utils/safe_json.py:26-44 | whatever the main file is turned into after a completed backed-up write, one read returns the committed payload if and only if the new bytes load as it or are text that is not JSON; only then, and only if that works, are they moved away, unchanged, and the next read finds nothing |
| SafeJson.NotTextIsNeverRepaired | utils/safe_json.py:26-44 | a main file that is not UTF-8, such as the single byte 255, makes every read raise, is never moved away, and leaves the backup untried |
| Utf8Text.IsTextIff | utils/safe_json.py:26-29 | bytes count as text if and only if they are the UTF-8 encoding of some sequence of characters |
| SafeJson.CutLeaves | wq_workflow/safe_io.py:115-139 | what main file and backup hold after any write, with any copy failing and the process dying at any operation |
| SafeJson.BackupGoodIff | wq_workflow/safe_io.py:109-139 | after any such write a changed main file reads back as the committed payload if and only if it loads as it, or it is text but not JSON and what the last copy that began has written, or the earlier backup if none began, still loads as it |
| SafeJson.BackupCurrentIff | wq_workflow/safe_io.py:109-139 | for a write in which no copy and no replace fails, and a main file that no longer loads: if and only if that file is text and the cut fell outside the windows in which the backup is still stale, torn or behind |
| Export.FileExport.CopyFull | log_manager/exporter.py:278-311 | a run that lives ends with the partial file's content continued to the end of the source; it ends otherwise only if the process dies or the replace fails, and then leaves a prefix of that and the old target |
| Export.ResumedIsSourceIff | log_manager/exporter.py:288-293 | a resumed copy is the source if and only if the partial file was a prefix of it |
| Export.ResumedTwice | log_manager/exporter.py:288-293 | whatever prefix an interruption leaves, a later run of a grown source completes it |
| Export.FileExport.ExportAtLast | log_manager/exporter.py:278-311 | after any number of interrupted or refused runs, the first that gets through, and no other, leaves the source as its end was seen |
| Export.FileExport.ExportFilteredLines | log_manager/exporter.py:314-360 | the result is what was kept, then what matches of the pieces read from the recorded offset on, however the source grows |
| Export.FileExport.ExportOne | log_manager/exporter.py:103-112 | because progress is reset first, a filtered export is exactly what matches of the pieces read from the start, whatever was left behind, and these are the lines unless a line is torn |
| Export.PiecesMean | log_manager/exporter.py:337-344 | the pieces read make up the source as it stands when its end is seen |
| Export.TornIff | log_manager/exporter.py:337-344 | the pieces read are lines if and only if no growth arrives after an unterminated last line has been read |
| Export.FilteredIff | log_manager/exporter.py:337-345 | a filtered export writes the matching lines of the source, for every filter, if and only if no line is torn in this way |
| Export.HalfLineIsMissed | log_manager/exporter.py:337-345 | an input where it is: a matching line first read half written is missing from the result |
| Export.WholeGrowthIsNotTorn | log_manager/exporter.py:337-345 | a source that stands still or grows by whole lines is never torn |
| Export.FilteredResumeIff | log_manager/exporter.py:326-345 | a run that resumes from a recorded offset and is not torn ends right if and only if the partial file holds exactly the matches before that offset |
| Export.StaleProgressLosesLines | log_manager/exporter.py:340-357 | whenever output before the recorded offset was lost, exactly so many bytes are missing from the result |
| Export.LinesMean | log_manager/exporter.py:339-344 | reading line by line yields lines, which make up the text |
| Export.MatchingAppend | log_manager/exporter.py:338-345 | what matches of two runs of lines is what matches of the one, then of the other |
| Export.LinesSplit | log_manager/exporter.py:338-344 | from the start of a line on, the lines read are the rest of the lines of the whole text |
| Archive.Directory.Split | log_manager/archive.py:79-97 | the loop writes the volumes under their numbered names, removes the archive, changes nothing else and returns the names in number order |
| Archive.SplitMeans | log_manager/archive.py:79-97 | after a split the archive is gone, every part is there with its volume, and every other file is as it was |
| Archive.VolumesMean | log_manager/archive.py:86-95 | the volumes make up the bytes, and all but the last are full |
| Archive.FullPartsAreVolumes | log_manager/archive.py:86-95 | no other bytes are cut into the same full parts |
| Archive.NumbersInOrder | log_manager/archive.py:91-91 | up to 999 the order of the padded numbers as text is their order as numbers |
| Archive.ThousandComesEarly | log_manager/archive.py:91-91 | exactly the numbers up to 100 come before 1000 as text |
| Archive.PartNamesDiffer | log_manager/archive.py:91-91 | different numbers give different names |
| Archive.PartBelongs | log_manager/importer.py:302-304 | the prefix taken from a part's name is the archive's name |
| Archive.ListedOnce | log_manager/importer.py:305-305 | there is one list of given names in sorted order |
| Archive.Directory.Recombine | log_manager/importer.py:301-311 | the parts are appended in the order of their names |
| Archive.RecombinesOverOldPartsIff | log_manager/importer.py:301-311 | with at most 999 parts recombining from any part gives back the archive if and only if every matching file that the split did not write is empty |
| Archive.RecombineUndoesSplit | log_manager/importer.py:301-311 | in particular when there is none, older parts of the archive that the split overwrites included |
| Archive.MarkedIsScrambled | log_manager/importer.py:305-310 | for every larger number of parts there is an archive that does not come back |
| Archive.RecombinesIff | log_manager/importer.py:301-311 | splitting into `n` parts can be undone for every archive if and only if `n` is at most 999 |
| Import.LogFile.PrefixMatches | log_manager/importer.py:231-239 | chunked comparison holds if and only if the prefixes are equal |
| Import.LogFile.AppendIncremental | log_manager/importer.py:155-169 | the file becomes the source if it is a prefix of it and stays otherwise; wherever the process dies nothing already there is lost and the file is on its way |
| Import.NeverShrinks | log_manager/importer.py:155-169 | over any imports the file only grows at its end |
| Import.ImportsConverge | log_manager/importer.py:155-169 | snapshots of one log imported in any order, with repeats and interruptions, end in the longest once its import has gone through |
| Import.MergeJsonLists | log_manager/importer.py:201-210 | the present list comes first, every incoming item that neither it nor an earlier incoming one repeats is in the result, and nothing else is added |
| Import.SameIdIff | log_manager/importer.py:213-216 | two records with an id are one if and only if the ids are equal |
| Import.SamePairIff | log_manager/importer.py:217-219 | two records named by two fields are one if and only if the joined texts are equal; with equal alpha, if and only if the times are; where no first field holds the bar, if and only if both fields agree |
| Import.SameWholeIff | log_manager/importer.py:220-220 | two items without a naming field are one if and only if they are written alike |
| Import.AllKeptIff | log_manager/importer.py:201-210 | the whole incoming list is appended as it is if and only if no item repeats an earlier one or a present one |
| Import.TimedRecordsAreKept | log_manager/importer.py:201-220 | in particular records of alphas at a time that differ in alpha or time are all kept, in order |
| Import.MergedMeans | log_manager/importer.py:201-210 | the present list is a prefix of the result, the identities are exactly the union, and added items have new, distinct identities |
| Import.MergeAgain | log_manager/importer.py:201-210 | merging the same list again changes nothing |
| Import.MergeKnown | log_manager/importer.py:201-210 | merging any list of known identities changes nothing |
| Import.SameLengthIff | log_manager/importer.py:189-191 | equal length holds if and only if nothing was new, and then the lists are equal |
| Import.MergeInTurn | log_manager/importer.py:201-210 | merging two lists in turn is merging their concatenation |
| Import.JsonFile.MergeJson | log_manager/importer.py:172-198 | lists are merged if something is new; a file that is not text raises out of the import and changes nothing; anything else is kept and set aside unless the policy overwrites; a failed write is reported as a change |
| Import.RestoreTarget.Restore | log_manager/importer.py:121-152 | wherever it stops, the live files are those after the first replaces of a fully staged list, and nothing changes before all is staged; it stops early only if it is refused, a listed file is missing or the process dies |
| Import.RestoreTarget.Stage | log_manager/importer.py:130-136 | staging changes no live file and completes only if every listed file is in the export |
| Import.EveryStepOldOrNew | log_manager/importer.py:137-150 | at every step, for distinct paths, each listed file is wholly new with its old content in the backups, or wholly old, and others are unchanged |
| Import.BackedUpIff | log_manager/importer.py:144-149 | the backups hold every replaced file's old content, whatever it was, if and only if no path is listed twice |
| CandidatePool.Pool.Add | wq_workflow/candidate_pool.py:118-193 | the stored rows after an add |
| CandidatePool.OthersMeans | wq_workflow/candidate_pool.py:118-124 | exactly the rows with the new text or the new non-empty tree are dropped, and distinctness survives |
| CandidatePool.PassingIsWorth | wq_workflow/candidate_pool.py:306-308 | a passed row gets its bonus if and only if neither its real correlation nor, without one, its mark blocks it |
| CandidatePool.WorthOfEach | wq_workflow/candidate_pool.py:288-309 | what one more of reward, Sharpe ratio, fitness, diversity, recency and similarity is worth to a row's rank, all else being equal |
| CandidatePool.CostOfCorrelation | wq_workflow/candidate_pool.py:294-303 | what its real correlation, or without a high one its estimate, costs a row against one without |
| CandidatePool.BlockedIff | wq_workflow/platform_sc.py:553-580 | exactly which correlations, by magnitude and the first one in range, and which marks block a row |
| CandidatePool.CandidateMeans | wq_workflow/candidate_pool.py:118-160 | the new row carries what was asked for, its similarity to the rows of other text and its estimate against those of another tree as well |
| CandidatePool.BlockedWithoutPenaltyIff | wq_workflow/platform_sc.py:553-570 | blocking goes by magnitude and the penalty by sign: exactly correlations of -0.85 and below are blocked without the penalty for it |
| CandidatePool.OrderMeans | wq_workflow/candidate_pool.py:213-215 | the ranking holds every row once, higher scores first, ties in their old order |
| CandidatePool.KeptAreBest | wq_workflow/candidate_pool.py:183-186 | the kept rows are the best `limit` of the old ones that stay and the new one, in order, and differ from them only in diversity |
| CandidatePool.WithDiversityTwice | wq_workflow/candidate_pool.py:217-223 | measuring diversity again changes nothing |
| CandidatePool.PoolInvariant | wq_workflow/candidate_pool.py:118-193 | over every sequence of adds from empty the pool stays within its size, without two rows of one text or one non-empty tree, with every diversity current |
| CandidatePool.LatestWins | wq_workflow/candidate_pool.py:118-186 | every stored row is what was said last about its expression, its verdict on the correlation included |
| CandidatePool.KnownIsReplaced | wq_workflow/candidate_pool.py:118-186 | adding a known expression trims nothing |
| CandidatePool.AtMostOneEvicted | wq_workflow/candidate_pool.py:183-186 | an add evicts at most one row that it does not repeat |
| CandidatePool.Pool.SelectNextParent | wq_workflow/candidate_pool.py:206-211 | the parent outranks every other row under fresh diversity, the first of equals |
| CandidatePool.MeasuredOrderIff | wq_workflow/candidate_pool.py:217-223 | rows stay in order under every diversity measure between 0 and 1 if and only if each leads every later one by 0.18, diversity aside |
| CandidatePool.StoredOrderIff | wq_workflow/candidate_pool.py:183-186 | so after an add that keeps at least two rows the stored order can be trusted, under every measure and at any later time, if and only if the kept rows have that lead |
| CandidatePool.StoredOrderMayBeWrong | wq_workflow/candidate_pool.py:183-186 | two adds at one time after which they have not, and the first stored row scores below the second |

## Left out

- Playwright, DOM, selectors, screenshots, login: the page is an oracle that may fail at every operation; only a reload or a new login disturbs what was written.
- The language model and its prompts: any text, or none.
- Text classification by regular expressions, metrics and fingerprints: each page comes with what the recognisers say about it.
- FastExpression.IterFunctionCalls: letters, digits and blanks are the ASCII ones; Python's pattern classes also match other scripts.
- FastExpression.ValidateCalls: the checks before the call loop (empty text, braces, placeholders, scientific notation, parenthesis counts, reserved names) are single patterns without state.
- FastExpressionTree.ScannerUndoesPrinter: strings do not hold their own quote, since the scanner knows no escapes; that they hold no `name(` is shown to be the exact condition.
- Dashboard.CollectWorkers: worker numbering, sorting, rounding and the text of the last event time; the check that the process is alive; the limit of two thousand rows read.
- DashboardAgrees.FoldRefinesMachine: events of the two watchdogs and TEMPLATE_SUCCESS events, which are emitted asynchronously or under a name that is not a state's, and events older than a day.
- WaitResult.WaitForBacktestFinished: the text that is read again after acceptance may differ from the accepted observation; the statement is about the observation.
- Attempt.RunAlphaFsm: the watchdogs' timing; a cancelled run may end at any await.
- Simulate.Session.FsmRecover: that the page is disturbed by anything but a reload or a new login.
- TemplateLoop.ProcessTemplate: the recovery of a success from the cached or latest result once the iteration limit is reached, exceptions from the page hard recovery, rewards, memories, sidecars and observers.
- TemplateLoop.SkipBacktest: that the simulator, which is told of the flag, then stops skipping; its advice is arbitrary.
- TemplateLoop.EndsWell: when one event uses up two budgets at once, which of the two the failure names.
- Real time: clocks are monotone and advanced by steps; sleeps are durations.
- FileLock: process identifiers written into the lock file, retry sleeps and the timeout of a waiting process; a failed unlink is an abandoned lock.
- SafeJson: directories, permissions, files that cannot be read at all; serialisation is any codec whose load undoes its dump, and a byte order mark is part of what it parses.
- Export.FileExport.ExportFilteredLines: CSV and JSON filters.
- Export.FileExport.ExportOne: the set of completed files that a resumed export skips, the manifest and the archive made at the end; a replace that fails is not looked at by the program: without a target from an earlier export it surfaces when the entry is built, with one the entry is built from the old target and the file is marked completed.
- Archive.Directory.Recombine: glob metacharacters in the archive's name, and path comparison rules of other systems than POSIX.
- Import.RestoreTarget.Restore: the check of the process id file is a parameter; listed paths are plain names.
- Import.Identity: how a value is turned into sorted JSON text.
- CandidatePool.Pool.Add: reading and writing the JSON file, the storage mirror, the fields that are stored and never read by the pool; scores and correlations are real numbers without rounding, and a correlation is a number or absent.
- CandidatePool.PoolInvariant: a negative size limit, which slices from the end; `Cut` models it but bounds nothing.
- zip and tar contents, hashes, storage, governance and evolution modules, configuration, command line, widgets.
