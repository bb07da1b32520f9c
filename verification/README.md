# Deterministic crypto agent: verified model

A Dafny model of a trading repository's deterministic core, with proofs about whole runs.

* **The run loop and the operator's listener** (`PhaseNames`, `Protocol`, `ProtocolSafety`, `ProtocolProgress`,
  `ProtocolReopening`, `ProtocolEvents`, `ProtocolWitness`, `ProtocolWrites`, `ProtocolScenarios`, `Orchestrator`,
  `ListenerCommands`, `RiskPaths`, `RiskGate`). Two processes share one store. `Protocol` is a machine in which every database access of
  the loop is a step of its own and every statement the listener commits may fall between any two of them; a sequence
  of labels is one interleaving, and the theorems are about all of them, restarts and crashes included. `Orchestrator` is the same loop as an imperative program over mutable tables; each of
  its methods is proved to follow the machine while `Interfere` lets the listener commit any statements after every
  access, and says exactly what the loop writes and in which order (`ProtocolWrites`), so that the theorems about runs
  hold of the program. `ProtocolScenarios` gives each part of an iteration, undisturbed, as one change of the tables. Codex results, validator results, prompt checks, the mode and the clock are arbitrary inputs.
* **From candles to a proposal** (`Decimals`, `Market`, `Signals`, `Stops`, `Sizing`, `Snapshots`, `Schemas`,
  `Decisions`, `Validation`). Decimals are real numbers; rounding to 0.0001 is an explicit function. The theorems give
  the exact conditions under which constructors of one module accept what another computes.
* **The risk governor** (`Risk`, `Supervisor`): acceptance, controls and exposure over whole runs.
* **Scans and comparators** (`Splitter`, `Order`, `Reconciliation`, `Quality`, `Universe`, `Replay`, `DailyReport`,
  `Journal`), each proved against an independent description of its result.

`Text` holds the string functions all of these use. Products of two unknowns are wrapped in small functions such as
`InUnit`, `Times` and `Value` so that proofs can treat them as plain terms.

Some promises of the repository turn out to hold only under a condition, and the model says which:

* A skipped task stays skipped in every continuation exactly when the loop stands outside the points from which it is
  still to write an open status for that task (`SkipIsForGoodExactlyWhen`); `SkipInsideIterationIsLost` is a run from a
  fresh store in which it does not.
* A started Deep Diagnose ends without its closing event exactly when it looks for the failure while none is recorded.
  That happens only between the loop's failed status and its first failure event, or after a crash just there
  (`StartedDiagnosesClose`); `DiagnosisCanEndSilently` and `CrashMakesDiagnosisSilent` are runs in which it does.
* An operator's approval or rejection is kept until the operator changes it exactly when no gate on its reference has
  decided the opposite without having recorded it, or, for an approval, sleeps having seen nothing
  (`DecisionIsKeptExactlyWhen`, `ApprovalStandsExactlyWhen`, `RejectionStandsExactlyWhen`). `LateApprovalIsOverruled` and
  `ChangedDecisionIsOverruled` are runs from a fresh store in which an approval is overruled by the deadline, and a
  rejection or an approval by the record of the decision before it.
* A rounded stop stays on the losing side of the entry exactly when the stop distance is more than half a tick for a
  long and at least half a tick for a short position, and a rounded target on the winning side exactly when its distance
  is at least half a tick for a long and more for a short position (`RoundedStopStaysOnLossSide`,
  `RoundedTargetStaysOnWinSide`); `RoundedStopCanMeetEntry` and `RoundedTargetCanMeetEntry` are prices that fail.
* A rounded notional keeps the position cap for every input exactly when rounding does not raise the cap itself
  (`CapIsKeptExactlyWhen`); otherwise it exceeds it by up to half a tick, as with a cap of 100.00005
  (`CapsKeptAndExceeded`).
* A journal append adds one line exactly when the file does not end in an unfinished line (`AppendAddsLineExactlyWhen`).
* No-trade records for symbols outside the universe never pass their own validator (`NoTradesPassValidation`).

Verify with `dafny verify dfyconfig.toml`.

## Model

| member | source | states |
|---|---|---|
| PhaseNames.PhaseFromSetting | agent-orchestrator/orchestrator.py:443-454 | a stored setting resolves to the first phase that it names by number or whole label, and to none exactly when it is blank or names none |
| PhaseNames.Scan | agent-orchestrator/orchestrator.py:448-454 | it is the first phase that the normalised text names by its number or whole label, and none exactly when no phase is named |
| PhaseNames.SettingRoundTrip | agent-orchestrator/orchestrator.py:438-454 | with distinct phase numbers, storing a phase's display name and reading it back gives exactly that phase, whatever digits and white space its name holds, and never reads as finished |
| PhaseNames.SpecialSettings | agent-orchestrator/orchestrator.py:443-454 | an unset phase and the word for a finished run resolve to no phase |
| PhaseNames.NamedOnce | agent-orchestrator/orchestrator.py:448-453 | no other phase answers to a stored label |
| PhaseNames.NamesByNumber | agent-orchestrator/orchestrator.py:448-453 | a text names a phase exactly when the first number in it is the phase's: comparing whole labels adds nothing |
| PhaseNames.ResolvesByNumber | agent-orchestrator/orchestrator.py:443-454 | with distinct numbers a setting resolves to a phase exactly when the first number in it is that phase's |
| PhaseNames.RefsDistinct | agent-orchestrator/orchestrator.py:1103-1193 | approval references of phase exits and of risky tasks determine their phase and task, and never coincide |
| Text.FirstNumberFound | agent-orchestrator/orchestrator.py:448 | the regular-expression search finds exactly the first maximal run of digits, which is what makes the label's number come first |
| Protocol.RepositoryReadsBack | agent-orchestrator/orchestrator.py:438-470 | the repository's naming of phases satisfies the reading-back assumption of the run theorems |
| Protocol.FirstOpen | agent-orchestrator/orchestrator.py:210-218 | the active task is the first of the list that is neither done nor skipped: every task listed before it is closed; without one all are |
| Protocol.FindCurrentPhase | agent-orchestrator/orchestrator.py:194-207 | the chosen phase has an open task unless it is the last one, and all tasks of the phases before it are done or skipped; with no stored status at all it is the first |
| ProtocolSafety.StepKeepsSafe | agent-orchestrator/orchestrator.py:1059-1515 | one database access of the loop, one committed statement of the listener, a restart or a crash keeps the safety invariant at every program point |
| ProtocolSafety.ListenerKeepsSafe | agent-orchestrator/discord_listener.py:1414-1481 | no statement a command handler commits breaks the invariant, wherever the loop is |
| ProtocolSafety.AlwaysSafe | agent-orchestrator/orchestrator.py:1033-1515 | the invariant holds after every interleaving of loop and listener, restarts and crashes included |
| ProtocolSafety.DoneTasksWereValidated | agent-orchestrator/orchestrator.py:940-1003 | in every interleaving from a fresh store, a task that was not marked done by hand is done only after a validation that passed with return code 0; and a risky task that is in progress or failed, or done and not by hand, has an approving row that the operator wrote, which is why a manual resume may go past the gate |
| ProtocolSafety.CurrentPhaseIsEarned | agent-orchestrator/orchestrator.py:1084-1153 | in every interleaving all tasks of the phases before the stored one are done or skipped, and of all phases once it says complete |
| ProtocolSafety.PhaseMovesOnlyApproved | agent-orchestrator/orchestrator.py:1103-1153 | in every interleaving a step that changes the stored phase sets it for the first time or moves from phase k, all closed, to the next or to complete, with the operator's approval of that exit |
| ProtocolSafety.OnlyTwoPointsWritePhase | agent-orchestrator/orchestrator.py:457-470 | only the first selection and an approved exit write the current phase |
| ProtocolSafety.LatestDecisionMeans | agent-orchestrator/decision_gate.py:37-54 | the decision of a reference is that of its newest row that holds one, and there is none without such a row |
| ProtocolSafety.RejectionSticks | agent-orchestrator/decision_gate.py:31-103 | a rejection that no gate on its reference is about to overrule with an approval keeps those gates shut through retries, restarts and crashes until the operator approves the reference |
| ProtocolSafety.ApprovalSticks | agent-orchestrator/decision_gate.py:31-103 | an approval that no gate on its reference sleeps over or is about to overrule opens every later gate on it until the operator rejects the reference |
| ProtocolSafety.RecordOverrules | agent-orchestrator/orchestrator.py:1128-1134 | a gate that has decided records its decision as the newest and acts on it, whatever was written since it looked |
| ProtocolSafety.DeadlineOverrules | agent-orchestrator/decision_gate.py:36-57 | a gate that sleeps does not look again once its deadline has passed: it records a rejection as the newest decision |
| ProtocolSafety.ApprovalStandsExactlyWhen | agent-orchestrator/decision_gate.py:31-103 | an approval is the newest decision in every continuation in which the operator does not reject exactly when it is so now, and no gate on its reference is about to record a rejection or sleeps having seen nothing |
| ProtocolSafety.RejectionStandsExactlyWhen | agent-orchestrator/decision_gate.py:31-103 | a rejection is the newest decision in every continuation in which the operator does not approve exactly when it is so now, and no gate on its reference is about to record an approval |
| ProtocolSafety.DecisionIsKeptExactlyWhen | agent-orchestrator/discord_listener.py:1270-1284 | so a decision the operator writes now is kept until the operator changes it exactly when the loop does not stand at a gate on the reference that decided the opposite or, for an approval, that sleeps |
| ProtocolWitness.LateApprovalIsOverruled | agent-orchestrator/decision_gate.py:36-57 | a run from a fresh store in which a risky task is approved while its gate sleeps, and is yet rejected and skipped when the deadline passes |
| ProtocolWitness.ChangedDecisionIsOverruled | agent-orchestrator/orchestrator.py:1209-1220 | runs from a fresh store in which the operator takes a decision back, either way, between the gate's look and its record, and the loop records the first decision over the second and acts on it |
| ProtocolReopening.StepOpensExactlyWhen | agent-orchestrator/orchestrator.py:922-1310 | a task that is done or skipped is open after one step exactly when the loop takes it at one of its three points that write an open status |
| ProtocolReopening.StepStaysOut | agent-orchestrator/orchestrator.py:1059-1515 | outside the program points from which such a write is still to come, no step of loop, listener, restart or crash leads back to them for a closed task |
| ProtocolReopening.SomeRunOpens | agent-orchestrator/orchestrator.py:1059-1515 | from each of those points some continuation opens the task |
| ProtocolReopening.CanOpenExactlyWhen | agent-orchestrator/orchestrator.py:1059-1515 | a task is open in some continuation exactly when it is open now or the loop stands at one of those points: a snapshot that picks it, the way to its mark, its gate until refused, its run and validation until passed |
| ProtocolReopening.SkipIsForGoodExactlyWhen | agent-orchestrator/discord_listener.py:1370-1411 | a skip by the operator survives every continuation exactly when the loop stands outside those points |
| ProtocolReopening.ClosedAtBoundaryStaysClosed | agent-orchestrator/orchestrator.py:1059-1515 | in particular a task that is closed between two iterations, after the session, or once its validation passed stays closed for ever |
| ProtocolReopening.SkipInsideIterationIsLost | agent-orchestrator/orchestrator.py:1257-1264 | a run from a fresh store in which the loop undoes a skip: it lands when the prompt is ready to be issued, and the next step marks the task in progress |
| ProtocolProgress.StepSpends | agent-orchestrator/orchestrator.py:1059-1515 | no step raises iterations plus remaining budget, except a resume, by one |
| ProtocolProgress.IterationsAreBounded | agent-orchestrator/orchestrator.py:1059-1515 | in every interleaving the working iterations of a session number at most the open tasks, the phases to cross, the resumes, and one more if it starts unpaused |
| ProtocolProgress.SessionLimitHolds | agent-orchestrator/orchestrator.py:1483-1512 | in every interleaving one session closes at most the configured number of tasks automatically, and unless it crashes its counter is that number |
| ProtocolEvents.InFlightIsTheListeners | agent-orchestrator/operator_events.py:163-182 | once the loop has posted a terminal event and nothing in flight since, work can be in flight only through the listener |
| ProtocolEvents.IterationsEndSettled | agent-orchestrator/operator_events.py:163-182 | in every interleaving, when an iteration has ended, work is in flight only if the listener posted so since that iteration began; so an undisturbed iteration leaves nothing in flight, whatever was before |
| ProtocolEvents.InFlightMeans | agent-orchestrator/operator_events.py:163-182 | work is in flight exactly when, but for announcements and advice, the newest event says that a task was resumed, that validation began or that a review runs |
| ProtocolEvents.StepKeepsDiagnoses | agent-orchestrator/discord_listener.py:982-1046 | through every step, crashes and restarts included: every started diagnosis is running, has found its failure, has posted its end or ended silently, and a failed task has its failure event unless the loop is about to post it or crashed there |
| ProtocolEvents.StartedDiagnosesClose | agent-orchestrator/discord_listener.py:982-1046 | in every run from a store without failures, restarts and crashes included, the started and closing events differ by the diagnoses still running or silent; and a step ends one silently exactly when it looks for the failure while none is recorded, which happens only while the loop is about to post the first failure event or after it crashed there |
| ProtocolWitness.SomeStoreIsDrivable | agent-orchestrator/orchestrator.py:194-218 | there are a store and phase maps, with and without a risky task, that the witness runs start from |
| ProtocolWitness.DiagnosisCanEndSilently | agent-orchestrator/discord_listener.py:1016-1046 | a run from a fresh store in which a started diagnosis ends without its closing event while the loop is about to post the failure |
| ProtocolWitness.CrashMakesDiagnosisSilent | agent-orchestrator/discord_listener.py:1016-1046 | a run in which the loop crashes there and is started again, and a diagnosis asked for after that ends silently too |
| ProtocolWrites.StepWrites | agent-orchestrator/orchestrator.py:1033-1515 | besides its own counters and program point every step of the loop changes exactly the one thing its program point writes, if any |
| ProtocolWrites.LogIsInTheTables | agent-orchestrator/operator_events.py:67-108 | in every run, restarts and crashes included, the tables hold the loop's events, its approval rows and the validation results exactly as its log of writes lists them, in order, whatever the listener adds |
| ProtocolScenarios.AloneIsARun | agent-orchestrator/orchestrator.py:1033-1515 | the undisturbed steps of the following rows are runs of the machine |
| ProtocolScenarios.SessionStarts | agent-orchestrator/orchestrator.py:1050-1066 | a session announces itself, starts its counters at zero, and waits while it is paused |
| ProtocolScenarios.CompleteRunReturns | agent-orchestrator/orchestrator.py:1071-1083 | a run marked complete announces its end and returns |
| ProtocolScenarios.FirstTaskIsEntered | agent-orchestrator/orchestrator.py:1085-1191 | without a stored phase the first one with open work is stored and its first open task becomes current, to be resumed, gated or marked |
| ProtocolScenarios.StoredPhaseGoesOn | agent-orchestrator/orchestrator.py:1085-1103 | with a stored phase its first open task is taken up, its exit asked for when all its tasks are closed, and the run ended when it has none |
| ProtocolScenarios.DecidedGate | agent-orchestrator/orchestrator.py:1103-1134 | a gate whose reference is decided adds its pending row, its announcement and the row of that decision, and is passed or refused accordingly |
| ProtocolScenarios.UndecidedGate | agent-orchestrator/orchestrator.py:1103-1134 | a gate nobody decides adds the same with a rejection once its deadline passes |
| ProtocolScenarios.AfterTheGate | agent-orchestrator/orchestrator.py:1136-1248 | an approved exit stores the next phase or the end, a refused one pauses and returns; a refused risky task is skipped with a note |
| ProtocolScenarios.PromptIsShown | agent-orchestrator/orchestrator.py:1257-1300 | in manual mode the task is in progress, its prompt announced, and the loop paused |
| ProtocolScenarios.PromptIsBlocked | agent-orchestrator/orchestrator.py:1298-1329 | in automatic mode a bad prompt leaves the task in progress and waiting for clarification, the loop paused and the session over |
| ProtocolScenarios.CodexStops | agent-orchestrator/orchestrator.py:1337-1473 | which event each unclean result of Codex posts, what then waits for the operator, and that the loop is paused and the session over |
| ProtocolScenarios.CodexReturns | agent-orchestrator/orchestrator.py:1337-1473 | a clean return goes on to validation |
| ProtocolScenarios.ValidationFails | agent-orchestrator/orchestrator.py:922-1025 | a failed validation leaves the task failed, the failure and the pause announced, and the loop paused |
| ProtocolScenarios.ValidationPasses | agent-orchestrator/orchestrator.py:1483-1512 | a passed one leaves the task done, announced and, in automatic mode, counted; at the limit the loop is paused and the session over |
| ProtocolScenarios.TaskIsResumed | agent-orchestrator/orchestrator.py:1176-1185 | a resumed task goes straight to validation |
| Orchestrator.Session.constructor | agent-orchestrator/orchestrator.py:1033-1040 | a new loop process over an existing store stands at the start of the machine's run |
| Orchestrator.Session.IsIdle | agent-orchestrator/operator_events.py:163-182 | the backward scan of the event rows decides what the specification of work in flight says |
| Orchestrator.Session.FindsFailure | agent-orchestrator/discord_listener.py:838-843 | the search for a recorded validation failure is exact |
| Orchestrator.Session.NewestDecision | agent-orchestrator/decision_gate.py:37-54 | the query for the newest decided row returns the latest decision for the reference |
| Orchestrator.Session.PostEvent | agent-orchestrator/operator_events.py:67-108 | posting an event appends it for the loop, is one step of the machine, adds exactly that write to the log, and extends the run by that step and listener statements only |
| Orchestrator.Session.MarkTask | agent-orchestrator/orchestrator.py:536-560 | writing a task's status is one step and one write; afterwards the task has that status unless the operator skipped it meanwhile |
| Orchestrator.Session.InsertApproval | agent-orchestrator/orchestrator.py:586-607 | inserting an approval row appends it after the rows there were, as one step and one write |
| Orchestrator.Session.Interfere | agent-orchestrator/discord_listener.py:1414-1481 | between two accesses of the loop the listener commits any statements: the run grows by listener statements only, nothing is added to the loop's log, earlier events and rows stay, what is new is the listener's, and neither program point, counters, stored phase nor current task move |
| Orchestrator.Session.WaitForApproval | agent-orchestrator/decision_gate.py:31-57 | the polling loop writes nothing; its answer is the newest decision at some moment of the wait, or a rejection when there was none at a last look |
| Orchestrator.Session.PassGate | agent-orchestrator/orchestrator.py:1103-1134 | a gate writes exactly its pending row, its announcement and the row of its decision, in this order, the decision being the newest at some moment after its opening |
| Orchestrator.Session.LeavePhase | agent-orchestrator/orchestrator.py:1136-1173 | a phase exit writes its gate and then the next phase when approved, and otherwise its gate, the pause and its note, leaving the stored phase as it was |
| Orchestrator.Session.SelectTask | agent-orchestrator/orchestrator.py:1068-1100 | the selection is made from the statuses and the phase as they were read: every task listed in the phase before the selected one is closed, a finished phase has none open, and the phase is the stored one or, when none was stored, the first with open work, which is then the one write |
| Orchestrator.Session.EnterTask | agent-orchestrator/orchestrator.py:1175-1191 | a task is resumed exactly in manual mode when it was in progress or failed; the current task is the one write, and leads to the resume, to the risk gate or to the prompt |
| Orchestrator.Session.PrepareTask | agent-orchestrator/orchestrator.py:1175-1329 | what is written for each of the five outcomes: resumed without a gate, refused and skipped, prompt shown, prompt blocked, handed to Codex, and which outcomes the mode and the risk allow |
| Orchestrator.Session.IssuePrompt | agent-orchestrator/orchestrator.py:1250-1300 | in manual mode the task is marked, its prompt announced and the loop paused; in automatic mode it is handed to Codex or blocked; the status is then in progress unless the operator skipped it |
| Orchestrator.Session.BlockPrompt | agent-orchestrator/orchestrator.py:1298-1329 | a blocked prompt writes the pause, the task that waits for clarification, its status and the event, in this order |
| Orchestrator.Session.RunCodex | agent-orchestrator/orchestrator.py:1337-1473 | a run writes its start; anything but a clean return with code 0 adds the pause, who is waited for and the event of that stop, and ends the session |
| Orchestrator.Session.StopSession | agent-orchestrator/orchestrator.py:1360-1384 | a stop writes the pause, the note whom it waits for and the event of its reason, in this order |
| Orchestrator.Session.RunValidation | agent-orchestrator/orchestrator.py:922-1025 | a validation writes its start and its result; a pass then marks the task done, a failure marks it failed, posts the failure and pauses; the status is that one unless the operator skipped the task |
| Orchestrator.Session.FinishTask | agent-orchestrator/orchestrator.py:1483-1512 | a completion is announced, counted in automatic mode only, and ends the session with the pause and the limit event exactly when the count has reached the limit |
| Orchestrator.Session.Conclude | agent-orchestrator/orchestrator.py:1337-1515 | a prepared task runs Codex unless it was resumed, then the validator, and writes exactly what that ending writes |
| Orchestrator.Session.WorkOn | agent-orchestrator/orchestrator.py:1175-1515 | the work on one task writes exactly what its outcome and its ending write, and the session goes on unless the prompt was blocked, Codex stopped or the limit is reached |
| Orchestrator.Session.Iterate | agent-orchestrator/orchestrator.py:1068-1515 | one working iteration writes the phase it chose, if any, and then exactly what one of four courses writes: no phases, nothing left, a phase exit, or work on a task; the course says whether the session goes on |
| Orchestrator.Session.BeginPass | agent-orchestrator/orchestrator.py:1059-1066 | the cap is tested before the pause flag, a pass waits exactly when it is not capped and the flag is set, only other passes count, and nothing is written |
| Orchestrator.Session.StartRun | agent-orchestrator/orchestrator.py:1050-1058 | a session appends its announcement, which is its one write, and starts its counters at zero |
| Orchestrator.Session.BetweenIterations | agent-orchestrator/orchestrator.py:1483-1512 | whenever the loop is between two iterations or over, its counter is the number of automatic completions of the run, within the limit, and work is in flight only by the listener's doing |
| Orchestrator.Session.RunLoop | agent-orchestrator/orchestrator.py:1033-1515 | the loop as a program, with listener statements between any two accesses: its writes are the announcement and then those of whole iterations, as many as it counted, of which only the last may end the session; a loop that ends otherwise has reached the cap; completions stay within the limit and are those of the run |
| Orchestrator.Session.RunFromFresh | agent-orchestrator/orchestrator.py:1033-1515 | the claims about runs, read off the tables this program leaves behind: validated and approved tasks, closed earlier phases, the bound on iterations, the session limit, settled work, the log in the tables, and the account of diagnoses |
| ListenerCommands.ActiveRowIsFailed | agent-orchestrator/discord_listener.py:199-212 | whichever row the ranking shows, it is failed exactly when some task failed and none is in progress |
| ListenerCommands.StatementsMean | agent-orchestrator/discord_listener.py:1414-1481 | an accepted command's statements, committed without interruption, have together the effect of the command |
| ListenerCommands.HandleCommand | agent-orchestrator/discord_listener.py:1414-1481 | a command commits nothing when it is refused and exactly its effect on the store when it is accepted; the run grows by listener statements only and the loop's log not at all |
| ListenerCommands.OperatorKeepsControl | agent-orchestrator/discord_listener.py:1339-1411 | an accepted clarify or skip leaves the loop paused with nothing in flight, and a skip closes its task and no other |
| ListenerCommands.CommandsMean | agent-orchestrator/discord_listener.py:1339-1411 | what each command does: a decision is the newest of its reference and leaves all others, a pause stops with nothing in flight, a resume goes on with work in flight, a clarification or skip ends its waiting, and nothing else changes |
| ListenerCommands.AcceptedWhen | agent-orchestrator/discord_listener.py:1339-1411 | exactly when each command is accepted, in terms of the tables |
| RiskPaths.RiskyReasons | agent-orchestrator/orchestrator.py:399-410 | a task has reasons exactly when some declared file, normalised, is forbidden or in a risky place, and each reason names such a file |
| RiskPaths.InsideMeansSegments | agent-orchestrator/orchestrator.py:393-396 | being inside a place means that the place's path segments start the file's: a name that merely begins alike is outside |
| RiskPaths.SecretsFileMeansLastSegment | agent-orchestrator/orchestrator.py:388-389 | a file counts as the secrets file exactly when its last path segment is that name |
| RiskPaths.NormalizeMeans | agent-orchestrator/orchestrator.py:379-380 | a declared path loses the back quotes and spaces at its ends, each backslash becomes a slash, and nothing else changes |
| RiskGate.GatedMeansSegments | agent-orchestrator/orchestrator.py:382-410 | a declared path gates its task exactly when its segments start with those of a risky or forbidden directory or end with the secrets file |
| RiskGate.RiskyFilesWereApproved | agent-orchestrator/orchestrator.py:1191-1262 | with the risky tasks given by their declared files: in every interleaving a task that declares a file in such a place is in progress, failed or, unless marked by hand, done only with the operator's approval |
| Splitter.SplitMessages | agent-orchestrator/discord_listener.py:673-692 | the loop terminates for every text and limit of at least one, what remains being always stripped and non-empty, and produces the specified pieces |
| Splitter.CutMeans | agent-orchestrator/discord_listener.py:680-690 | the cut is at the last line break of the second half of the limit, else at the last space there, else at the limit |
| Splitter.CutLeavesBoth | agent-orchestrator/discord_listener.py:684-691 | every cut leaves a non-empty stripped piece within the limit and a non-empty stripped rest, and consumes at least half the limit |
| Splitter.PiecesFit | agent-orchestrator/discord_listener.py:673-692 | every message is non-empty, stripped and within the limit |
| Splitter.PiecesKeepPrinting | agent-orchestrator/discord_listener.py:673-692 | the messages together hold the text's characters other than white space, all of them and in order |
| Splitter.SplitKeepsText | agent-orchestrator/discord_listener.py:675-677 | for any text: a blank one is sent as the placeholder, a short one whole, and nothing printing is lost |
| Splitter.PiecesAreFew | agent-orchestrator/discord_listener.py:673-692 | a text of n characters needs at most (n - 1) / h + 1 messages, h being half the limit, or one |
| Decimals.HalfUpNearest | libs/strategy/stops.py:184-185 | half-up rounding lands on the 0.0001 grid at most half a tick away and keeps the sign |
| Decimals.HalfUpTies | libs/strategy/stops.py:184-185 | ties go away from zero, and a negative value is rounded as its opposite is |
| Decimals.HalfUpOfGrid | libs/strategy/stops.py:184-185 | values on the grid are not moved |
| Decimals.HalfUpMonotone | libs/strategy/stops.py:184-185 | rounding keeps the order of values |
| Decimals.HalfUpAgainstGrid | libs/strategy/stops.py:184-185 | against a positive grid value rounding is strictly below exactly for values more than half a tick below, and strictly above exactly from half a tick above on |
| Decimals.HalfUpPositive | libs/strategy/stops.py:184-185 | a value is still positive after rounding exactly from half a tick on |
| Decimals.FloorToStepFits | libs/strategy/sizing.py:112-115 | the floored value is at most the value, and one step more is above it |
| Decimals.FloorToStepIsLargest | libs/strategy/sizing.py:112-115 | no multiple of the step that fits is larger than the floored value |
| Market.ValidateCandles | libs/strategy/breakout.py:193-203 | the loop accepts exactly the histories that are long enough and strictly ordered by timestamp |
| Market.ExtremesAreAttained | libs/strategy/breakout.py:159-160 | the prior high and low are bounds of the window that some candle attains |
| Market.SumIsTotal | libs/strategy/regime.py:143-145 | the sum of a window's closes is their total from its first candle on |
| Signals.ScaledCandleIsValid | libs/strategy/interfaces.py:105-117 | a candle with all prices multiplied by one positive factor still satisfies the constructor |
| Signals.RegimeScales | libs/strategy/regime.py:86-160 | the regime label and its confidence, and the error for a short or unordered history, do not change when all prices are multiplied by one positive factor |
| Signals.EntryScales | libs/strategy/breakout.py:70-113 | nor does the entry signal, except for the close it carries |
| Signals.ExitScales | libs/strategy/breakout.py:115-147 | nor does the exit signal, for either side |
| Signals.OlderCandlesDoNotMatter | libs/strategy/breakout.py:150-171 | older candles before a history that is long enough change neither regime nor entry nor exit, as long as the whole is in order |
| Signals.ConfidenceOfRegime | libs/strategy/regime.py:110-168 | the confidence is a ratio on the grid, is exactly one for both trend labels and exactly zero for the unknown one |
| Signals.LongEntryMeans | libs/strategy/breakout.py:70-95 | a long entry is signalled exactly when the regime allows entries, the close clears every high of the candles before it in the look-back period by the buffer, and it has risen by the minimum momentum |
| Signals.RegimeMeans | libs/strategy/regime.py:86-118 | in terms of the candles: a trend needs the means of the last fast and slow closes apart by the threshold in its direction, and the last close from the one a slope period before it too; a range needs both within its threshold |
| Signals.RegimePricesAre | libs/strategy/regime.py:94-99 | fast and slow are the means of the last fast and slow closes, the latest is the last close and the prior one that many candles before it |
| Signals.ClassifiedWhen | libs/strategy/regime.py:130-140 | a history is classified exactly when it covers the slow average and the slope, in order |
| Signals.ConfidenceMeans | libs/strategy/regime.py:148-168 | trends are certain, the unknown regime is not at all, and a range is graded by the larger of the two movements relative to its threshold |
| Signals.SignalledWhen | libs/strategy/breakout.py:193-203 | signals are generated exactly for a history that covers the window and the momentum period, in order |
| Signals.SignalsCarry | libs/strategy/breakout.py:70-190 | a signal carries the names, the time and the rounded last close, and its strength is the graded mean of the movements against the window and over the momentum period |
| Signals.ShortEntryMeans | libs/strategy/breakout.py:96-113 | a short entry is signalled exactly in a bear regime that allows entries and shorts, when the close is below the window's lowest low by the buffer and has fallen by the minimum momentum, and does not meet the conditions of a long entry |
| Signals.ExitMeans | libs/strategy/breakout.py:115-147 | an exit is signalled exactly when the regime says so, the close is beyond the window's lowest low, or for a short position its highest high, by the buffer, or it has moved against the position by the minimum momentum |
| Signals.SignalsAreConstructible | libs/strategy/breakout.py:206-251 | the signals generated for a valid series satisfy the signal constructors, strength included |
| Stops.DistancesAreBounded | libs/strategy/stops.py:110-124 | before rounding the distance obeys both bounds, the stop is that share of the entry on the losing side and the target exactly the multiple of it on the other |
| Stops.StopIsClampedReference | libs/strategy/stops.py:110-124 | the stop is the extreme moved away by the buffer, or, when that is nearer or further than the configured distances from the entry, the price at that distance |
| Stops.PlanCarries | libs/strategy/stops.py:128-139 | the trailing distance is its configured share of the entry, and the plan carries stop, target and it, rounded |
| Stops.MetricsReadPrices | libs/strategy/stops.py:98-124 | the entry is the carried price or the latest close, and the reference is the lowest low, for a short the highest high, of the last candles |
| Stops.RoundedTargetStaysOnWinSide | libs/strategy/stops.py:113-124 | the rounded target is strictly on the winning side exactly from half a tick of distance on, for a short above it |
| Stops.RoundedTargetCanMeetEntry | libs/strategy/stops.py:184-185 | at an entry of one tick a valid configuration rounds the target onto the entry, on either side |
| Stops.RoundedStopStaysOnLossSide | libs/strategy/stops.py:98-138 | with the entry on the grid the rounded long stop is below it exactly when the distance exceeds half a tick, the rounded short stop above it exactly when it is at least half a tick |
| Stops.RoundedStopCanMeetEntry | libs/strategy/stops.py:184-185 | at an entry of one tick a valid configuration rounds the stop onto the entry, on either side |
| Stops.PlanIsConstructibleWhen | libs/strategy/interfaces.py:294-303 | the plan's constructor accepts the rounded prices exactly when none is less than half a tick |
| Stops.PlanStopMeans | libs/strategy/stops.py:63-95 | a plan is made exactly for an entry with a usable history and price and rounded prices that stay positive; without an entry there is none |
| Sizing.CappedIsBoundary | libs/strategy/sizing.py:84-92 | a quantity fits the risk budget and the value cap exactly when it is at most the capped quantity |
| Sizing.SizingIsOptimal | libs/strategy/sizing.py:78-101 | in the input's own fields: the stepped quantity loses at the stop at most the risked share of equity and is worth at entry at most the cap; every multiple of the step that does is no larger, and one step more does not |
| Sizing.SizeMeans | libs/strategy/sizing.py:44-75 | a valid input is always sized; below a minimum the size is zero; notional and risk amount are the worth at entry and the loss at the stop, rounded; the notional exceeds the cap by at most half a tick, and not at all when rounding does not raise the cap itself |
| Sizing.CapIsKeptExactlyWhen | libs/strategy/sizing.py:44-75 | the rounded notional keeps a cap for every input and configuration exactly when rounding does not raise the cap itself; otherwise one unit bought with the whole cap exceeds it |
| Sizing.CapsKeptAndExceeded | libs/strategy/sizing.py:44-75 | every cap on the grid is kept, 100.00001 off the grid is kept too, and 100.00005 is not |
| Sizing.MoreRoomNeverSizesLess | libs/strategy/sizing.py:78-101 | more equity, a larger risk fraction, a higher cap or a nearer stop never sizes fewer units |
| Snapshots.SizingInputIsConstructibleWhen | libs/strategy/interfaces.py:246-257 | for a grid entry the sizing constructor accepts the rounded stop exactly when the stop distance survives rounding |
| Snapshots.SnapshotIsBuiltWhen | libs/strategy/signal_snapshot.py:67-119 | a snapshot is built exactly for a history long enough for all components and, when an entry is signalled, with sizing settings and prices that survive rounding; and every built snapshot is coherent |
| Snapshots.SnapshotCarries | libs/strategy/signal_snapshot.py:67-119 | a built snapshot carries the names, time and last close it was asked for, the three signals, and the plan, sizing input and size made from its entry |
| Snapshots.SignalsDoNotDependOnUnit | libs/strategy/signal_snapshot.py:67-71 | through the whole builder: where snapshots of a series and of the same series in another unit of price are both built, regime, entry action, side and strength, and exit are the same; and without an entry the second is built whenever the first is |
| Snapshots.BuiltPlanIsRounded | libs/strategy/signal_snapshot.py:71-119 | the stop plan of a built snapshot is the rounded plan for an entry at the rounded close, which its sizing input also uses |
| Snapshots.BuiltStopKeepsDistance | libs/strategy/signal_snapshot.py:71-119 | so the planned stop lies within the configured distances of the entry, half a tick aside |
| Snapshots.SizingCarriesSettings | libs/strategy/signal_snapshot.py:96-119 | the sizing input of a built snapshot carries the builder's equity, risk fraction and cap |
| Snapshots.SizingInputCarries | libs/strategy/signal_snapshot.py:96-119 | a sizing input is made only for an entry and carries its side, the plan's stop, the settings, and as entry price the signal's or else the last close |
| Decisions.BuiltSnapshotsDecide | libs/decisioning/deterministic_rules.py:60-155 | for a coherent snapshot no record constructor raises; a proposal comes out exactly for an allowed symbol with an entry of positive size, and a no-trade record names the universe exactly when the symbol is outside it |
| Decisions.ProposalCarries | libs/decisioning/deterministic_rules.py:112-139 | every field of a proposal: identifiers, side, size, prices, the entry's strength as confidence and its reason, the configured order and lifetime |
| Decisions.InputCarries | libs/decisioning/deterministic_rules.py:60-111 | every field of the decision input, with the last close as the mark |
| Decisions.NoTradeCarries | libs/decisioning/deterministic_rules.py:140-155 | every field of a no-trade record, with the entry's own reason or the zero size as its rationale |
| Decisions.ProposalsPassValidation | apps/decision_engine/validators.py:41-79 | a built proposal passes the raising validator with its own input exactly outside future-live mode and before it expires |
| Decisions.NoTradesPassValidation | apps/decision_engine/validators.py:101-122 | a built no-trade record passes its validator exactly outside future-live mode and when its symbol was allowed |
| Decisions.PipelineNeverRaises | libs/decisioning/deterministic_rules.py:60-139 | from candles to proposal: a built snapshot always decides, and an unexpired proposal passes validation |
| Decisions.ProposalsRiskWithinBudget | libs/decisioning/deterministic_rules.py:112-139 | by its own prices a proposal loses at its stop at most the configured share of equity and is worth at entry at most the cap, and its notional is that worth rounded |
| Validation.ValidateProposalPolicy | libs/decisioning/scoring.py:93-176 | the growing list of issues is the specified one, and the report passes when it is empty |
| Validation.ValidateContext | libs/decisioning/scoring.py:179-254 | the context checks append the specified issues |
| Validation.FindingsExact | libs/decisioning/scoring.py:93-254 | a report holds exactly the findings whose condition holds, each once, in the order of the checks |
| Validation.ReportAgreesWithRaising | apps/decision_engine/validators.py:41-98 | for every constructible proposal the report passes exactly when the raising validator passes and the policy's symbol, size and confidence bounds hold |
| Validation.RaisingMeans | apps/decision_engine/validators.py:41-98 | exactly when the raising validator passes, in the fields of proposal and decision input |
| Validation.NoTradeMeans | apps/decision_engine/validators.py:101-122 | exactly when a no-trade record passes its validator |
| Risk.Evaluate | libs/risk/account_policy.py:105-134 | the list of vetoes holds exactly those whose condition on mode, flags, prices lost and exposures holds, each once and in the order of the checks, and a proposal is allowed when it is empty |
| Risk.IssuesExact | libs/risk/account_policy.py:105-153 | a veto is in the list exactly when its own condition holds, the later ones of a group only without the earlier; none occurs twice and all are in the order of the checks |
| Risk.DrawdownExceeds | libs/risk/drawdown_rules.py:54-88 | a drawdown exceeds its limit exactly when the equity lost exceeds that share of the reference, and is a ratio below one |
| Risk.AllowedMeans | libs/risk/account_policy.py:105-153 | the exact condition of acceptance; an exit passes a freeze, a drawdown and every exposure but not the kill switch |
| Risk.PositionsExpose | libs/risk/position_limits.py:62-71 | no positions expose nothing; each further one, long or short, adds its notional to the total and to its own symbol and nothing to any other |
| Risk.DrawdownIssueMeans | libs/risk/drawdown_rules.py:54-88 | no drawdown is raised exactly when both losses of equity are within their shares |
| Risk.FewerExposeLess | libs/risk/position_limits.py:62-71 | some of the positions, in any order, expose no more than all of them, in total and to each symbol |
| Risk.AllowedMonotone | libs/risk/position_limits.py:74-95 | a smaller notional or fewer positions never turn an allow into a veto |
| Risk.PositionOrderDoesNotMatter | libs/risk/position_limits.py:62-95 | the decision does not depend on the order of positions |
| Supervisor.ControlsMean | libs/risk/freeze_state.py:102-157 | after any commands: killed exactly if an activation occurred, flatten requested exactly if an activation or a flatten occurred, frozen exactly if the last command was not to unfreeze; and the state names the last command, its actor, reason and time |
| Supervisor.StoppedOnlyByKillSwitch | apps/supervisor/health.py:81-140 | the overall health is stopped exactly under the kill switch or without a policy, and healthy exactly without kill or freeze and with both losses of equity within their shares |
| Supervisor.Worst | apps/supervisor/health.py:138-140 | the overall status is one of the checks and none is more severe |
| Supervisor.AcceptedIsAllowed | apps/supervisor/service.py:108-123 | the supervisor accepts exactly what the policy allows |
| Supervisor.ControlsDecide | apps/supervisor/service.py:108-217 | under controls a proposal is accepted exactly when mode and symbol are allowed, the controls are not killed, and an entry is not frozen by them and keeps the account's limits |
| Supervisor.NothingAcceptedAfterKill | apps/supervisor/service.py:134-142 | after an activation no continuation of the commands lets any proposal be accepted, exits included |
| Supervisor.ReplacingDiffersFromCombining | apps/supervisor/service.py:199-217 | the controls replace the account's own flags: under any controls the decision differs from one that combines both exactly when an own flag vetoes a proposal that nothing else vetoes |
| Supervisor.ControlsReplaceFlags | apps/supervisor/service.py:199-217 | so acceptance under controls does not depend on the account's own flags |
| Supervisor.EventKeepsLimits | libs/risk/account_policy.py:136-153 | one submitted proposal, reduction or closing keeps total and symbol exposure within limits |
| Supervisor.EventMovesExposure | libs/risk/position_limits.py:62-71 | an accepted entry adds its notional to the total and to its symbol, other proposals change nothing, a reduction gives up the difference and a closing the whole notional |
| Supervisor.ExposureStaysWithinLimits | libs/risk/position_limits.py:62-95 | over every run of submissions, reductions and closings an account that starts within its limits stays within them, in total and for every symbol |
| Order.StrOrdered | apps/supervisor/reconciliation.py:333 | the order of keys: any two strings compare one way, and only one |
| Order.StrLessMeans | apps/supervisor/reconciliation.py:333 | dictionary order: a proper prefix first, otherwise the first difference decides |
| Reconciliation.CheckUniqueBalances | apps/supervisor/reconciliation.py:514-519 | the check accepts exactly distinct assets |
| Reconciliation.CheckUniquePositions | apps/supervisor/reconciliation.py:522-527 | the check accepts exactly distinct symbol and side pairs |
| Reconciliation.TotalsHold | apps/supervisor/reconciliation.py:331-332 | for distinct assets the table holds every balance's total and nothing else |
| Reconciliation.NotionalsHold | apps/supervisor/reconciliation.py:381-382 | for distinct keys the table holds every position's notional and nothing else |
| Reconciliation.SortedListingIsUnique | apps/supervisor/reconciliation.py:333 | a set of keys has only one sorted listing |
| Reconciliation.SortKeys | apps/supervisor/reconciliation.py:333 | sorting the union of keys gives that listing |
| Reconciliation.Compare | apps/supervisor/reconciliation.py:325-372 | the walk over the sorted keys appends the specified differences |
| Reconciliation.DifferencesReport | apps/supervisor/reconciliation.py:325-423 | the differences are strictly sorted and hold exactly one mismatch for every key that does not match: unexpected when only the external side holds it, missing when only the own side does, a value mismatch when both do too far apart; with each side's value, or none where it lacks the key |
| Reconciliation.KeysCompare | apps/supervisor/reconciliation.py:387 | names come first in dictionary order, and of one name long positions before short ones |
| Reconciliation.NothingReportedWhenMatched | apps/supervisor/reconciliation.py:325-372 | nothing is reported exactly when the key sets are equal and all values differ by at most the tolerance |
| Reconciliation.DifferencesSwap | apps/supervisor/reconciliation.py:325-423 | swapping the sides swaps missing and unexpected codes and the two values, in place |
| Reconciliation.MatchesAdd | apps/supervisor/reconciliation.py:218-254 | tolerances add along a chain of three snapshots |
| Reconciliation.OnlyTotalsCount | apps/supervisor/reconciliation.py:360-371 | only totals are compared, available amounts do not matter |
| Reconciliation.CriticalMeansPositions | apps/supervisor/reconciliation.py:257-270 | a report holds a critical mismatch exactly when the position tables do not match |
| Reconciliation.Reconcile | apps/supervisor/reconciliation.py:218-254 | the report lists balance and then position differences and is matched exactly when both tables match |
| Quality.TimeframeRoundTrip | libs/market_data/quality_checks.py:94-101 | every quantity with a unit letter reads back as that many units |
| Quality.ValidateCandleShape | libs/market_data/quality_checks.py:104-123 | the shape checks append the specified issues |
| Quality.ShapeMeans | libs/market_data/quality_checks.py:104-123 | a candle raises no shape issue exactly when it is finite, non-negative and enclosed by its low and high |
| Quality.ShapeReportsExactly | libs/market_data/quality_checks.py:104-123 | exactly which shape issues a candle raises |
| Quality.RowReportsExactly | libs/market_data/quality_checks.py:45-79 | exactly which issues a row raises: of its shape, another symbol or timeframe, a timestamp seen before, one out of order, or a gap |
| Quality.TimeframeMeans | libs/market_data/quality_checks.py:94-101 | exactly which timeframes are understood |
| Quality.ValidateQuality | libs/market_data/quality_checks.py:34-79 | the single pass with its set of seen timestamps produces the specified issues, or the error of an unreadable timeframe |
| Quality.PassesMeansClean | libs/market_data/quality_checks.py:34-79 | the scan passes exactly non-empty rows of one symbol and timeframe, well shaped, a positive interval apart |
| Quality.CleanTimestamps | libs/market_data/quality_checks.py:65-77 | in a passing dataset the i-th timestamp is the first plus i intervals |
| Quality.DuplicateImpliesOutOfOrder | libs/market_data/quality_checks.py:61-67 | a duplicate timestamp is never reported without an order issue |
| Quality.PassingFormsSeries | libs/strategy/breakout.py:193-203 | the candles of a passing dataset are always ordered, and form a series its constructors accept exactly when the names are not blank, no timestamp is negative and every price is positive |
| Universe.SelectUniverse | libs/strategy/universe.py:102-209 | the loop over the configured symbols computes the specified selection and rejections |
| Universe.LookupMeans | libs/strategy/universe.py:212-222 | metadata are those under the exact name, otherwise those of the first name with the same canonical form, and none only when there is no such name |
| Universe.VerdictMeans | libs/strategy/universe.py:138-191 | a symbol is out for the first of these that applies: denied, metadata missing, market inactive, quote asset not listed, least notional below the floor; and in when none does |
| Universe.EachEntryOnce | libs/strategy/universe.py:115-204 | every configured entry is in exactly one list, in order: selected when it is the first of its name, passes the filters and the cap is not reached, else rejected with the first reason that applies |
| Universe.SelectedIsSelectable | libs/strategy/universe.py:115-204 | selected symbols are stripped, canonically distinct, pass every filter and respect the cap |
| Universe.CapCutsOff | libs/strategy/universe.py:193-202 | the capped selection is the prefix of the uncapped one |
| Universe.SelectingAgain | libs/strategy/universe.py:102-209 | selecting again from what was selected selects all of it and rejects nothing |
| Replay.ItemsOrdered | scripts/replay_event_packets.py:208-210 | the sort key is a total preorder with time first |
| Replay.EarlierMeans | scripts/replay_event_packets.py:208-210 | time first, at one time the journal before packets, then source, type and entity in dictionary order |
| Replay.SortIsOrdered | scripts/replay_event_packets.py:88-90 | sorting gives the same items in order |
| Replay.SortIsStable | scripts/replay_event_packets.py:88-90 | items with equal keys keep their order |
| Replay.KeepOfSort | scripts/replay_event_packets.py:192-210 | filtering, by any condition, commutes with the sort |
| Replay.BuildTimeline | scripts/replay_event_packets.py:65-93 | reading every journal and packet file, keeping what matches and sorting gives the specified timeline; it fails exactly for a reversed window or a file with a bad line, a missing file being empty |
| Replay.ReadPaths | scripts/replay_event_packets.py:143-165 | the reading loop concatenates the records of all files in order and fails on the first bad line |
| Replay.WrittenFilesReadBack | scripts/replay_event_packets.py:143-165 | files that journal writers left are read as their records, one file after the other |
| Replay.TimelineIsSortedPermutation | scripts/replay_event_packets.py:65-93 | the timeline is a sorted permutation of the matching inputs, and the filtered sort of all inputs |
| Replay.TimelineHolds | scripts/replay_event_packets.py:192-206 | a record is on the timeline exactly when it is in one of the inputs, is of the run asked for, if one is, and lies between the bounds that are set |
| Replay.AdjoiningWindows | scripts/replay_event_packets.py:192-210 | the timelines of adjoining windows concatenate to the timeline of their union |
| DailyReport.SummaryAdds | scripts/emit_daily_report.py:173-196 | every count of the report adds over concatenated timelines |
| DailyReport.ReportsAdd | scripts/emit_daily_report.py:173-196 | so the reports of adjoining windows add up, field by field, to the report of their union |
| DailyReport.CountsSumToItems | scripts/emit_daily_report.py:173-196 | the per-type counts sum to the item count, and the journal and packet counts do |
| DailyReport.ItemsCount | scripts/emit_daily_report.py:173-196 | the report of nothing is empty, and each item adds to exactly the fields its kind and type belong to |
| Journal.LinesOfAppend | libs/journal/writer.py:53-55 | a line appended to complete lines is exactly one more line |
| Journal.UnfinishedLineSwallows | libs/journal/writer.py:53-55 | after an unfinished last line the next record's line is merged into it |
| Journal.AppendAddsLineExactlyWhen | libs/journal/writer.py:53-55 | so an append adds exactly its line if and only if the file does not end in an unfinished one |
| Journal.ReadRecords | libs/journal/writer.py:73-94 | the reading loop skips blank lines and fails on the first line that does not parse |
| Journal.RecordsMean | libs/journal/writer.py:73-94 | reading fails exactly when some line that is not blank does not parse |
| Journal.RecordsOfOneMore | libs/journal/writer.py:73-94 | a further blank line changes nothing, a further line that parses adds its record at the end |
| Journal.ContentReadsBack | libs/journal/writer.py:73-101 | reading the file of any records gives exactly those records in order, and as many printed lines |
| Journal.ContentGrows | libs/journal/writer.py:53-55 | the file of fewer records is the start of the file of more |
| Journal.LineAtOffset | libs/journal/writer.py:51-62 | at the length of the file before it stands each record's encoded line and its break |
| Journal.Writer.constructor | libs/journal/writer.py:39-40 | a writer for a path without a file starts with no records |
| Journal.Writer.Reopen | libs/journal/writer.py:39-40 | a writer over a file that earlier writers left continues its records |
| Journal.Writer.Append | libs/journal/writer.py:42-64 | an append adds one line at the end, leaves earlier content untouched and returns the right line number and offset |
| Journal.Writer.Read | libs/journal/writer.py:73-79 | reading returns everything appended, in order |
| Journal.Writer.AppendAll | libs/journal/writer.py:42-101 | after any appends to a fresh journal all results are numbered and every record's line is found at its offset |

## Left out

- Discord client, cards, webhooks, model clients, prompt texts, notifications and activity logs: input and output. The
  results of reviews and diagnoses are arbitrary.
- SQLite itself, its locking, and timestamps: each table is a map or an append-only sequence, each committed statement one
  step. A command argument list that is malformed, and `!status` and `!explain`, which write nothing.
- The validator's own checks (git, make targets, secret patterns): one arbitrary result per run.
- The phase map and the queue are fixed during a run, phases have distinct numbers and disjoint task lists, and task ids
  in settings are numbers rather than texts. Attempts, titles and notes of tasks are not kept.
- The single-step commands that assemble one prompt or review one phase outside the loop, button labels, and the choice
  of the newest pending approval, which rests on an SQLite detail.
- The order of equally ranked rows on the operator card, by phase text and id: any choice is allowed.
- Orchestrator.Session.RunLoop: runs for any number of passes rather than for ever, so that it terminates; `Protocol`
  covers runs of every length.
- Orchestrator.Session.WaitForApproval: polls at least once before its deadline, because the timeout is at least one
  second; a process suspended that long between setting the deadline and the first test is not modelled.
- Two reads of the stored phase in one iteration are one step, because only the loop writes it.
- Approval rows of other origin: the decision text is either of the two words the commands write.
- Text.Lower: ASCII only, as are digits; other scripts' letters and digits are not folded or read.
- Decimal's 28-digit context rounding, not-a-number values beyond the finiteness flag of dataset rows, and the text of
  metadata and reasons. A price in a signal's metadata is absent, a decimal, or text that is not one.
- SHA-256 and JSON: a digest is a parameter, and the journal's line codec is any codec whose lines are read back and hold
  no line break.
- Universe.SelectUniverse: upper-casing is an arbitrary function of strings, so nothing about Unicode case is assumed.
- Converting validation issues to rejection records, and mapping messages back to reasons.
- Audit artifacts, event packets and alerts of the supervisor, serialisation of records, and constructor checks on types.
- Parquet and DuckDB storage, exchange access, the Freqtrade adapter, configuration loading, model routing, research
  reports and command-line wrappers: thin or input and output, and would add only easy members.
