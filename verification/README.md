# Verification of the agent harness

A Dafny model of the harness's two event-sourced protocols, of the storage and locking underneath them,
and of the self-contained algorithms they rely on, with machine-checked proofs of what they promise.
`dafny verify dfyconfig.toml` checks the whole project.

**Workflows.** `WorkflowModel` is the acceptor of workflow events: one step, and its fold over a history.
`WorkflowInvariants` proves its state invariant and its counting bounds, `WorkflowLineage` where an
approved candidate comes from. `WorkflowWriter` states exactly when the event built from a stage's result
is accepted; `WorkflowDiscipline` adds what the service keeps beyond the acceptor, and compares crash
recovery with the uninterrupted run. `WorkflowEvidence` is the scan of its own history that an approval
rests on. `WorkflowService` is the service itself as a class over its journal: the environment raises
signals, moves dependencies and fails writes at will, what a delegation comes back with is any function of
the journal that asks for it, and the class keeps whether a write has failed, so that its methods also say
what a run comes to undisturbed. `WorkflowProjector` is the
acceptor in the program's own form, cloning a record and updating its fields. `WorkflowLease` interleaves
any number of attempts in any number of processes; `LeaseProgress` says who can come to hold the lease.

**Worker tasks.** `TaskModel` is the acceptor of task events (schema version 7), `TaskProjector` its
imperative form, `TaskPatchGate` what every accepted history that applies a patch looks like.
`TaskEvaluation` is the built-in evaluator and the aggregation of several. `TaskAttempt` says what one
attempt comes to, given what its environment answers, and `TaskService` is the writer: agent loop, attempt,
delegation over attempts, and patch application, for arbitrary answers of providers, tools, commands, git
and evaluators, with signals raised and writes failing at any time. `TaskHistory` links a report to its history; `TaskApplication` shows
which histories take a patch application.

**Storage.** `Publication` interleaves the helper that publishes a file with its parent, other publishers
and power failures; `PublicationReader` reads a file while it is being published. `JournalNames`,
`Journal`, `JournalStore` and `JournalChain` cover file names, replay, append and the digest chain for
both journals, with JSON, SHA-256 and the credential check as parameters; `JournalReplay` ties the replay
to the two acceptors.

**Algorithms.** `Glob`, `Framing`, `Semaphore`, `Utf8`, `Trace`, `Router`, `RouterOrder` and `RouterPreference`.

## What the proofs found

- The acceptor takes the event built from `stageResult` exactly for the outcomes `Recordable` describes.
  It refuses a completed non-plan stage without a patch when another run is already the candidate, and a
  retry without a report. A report of the first kind is nothing the service rules out. The second needs a
  delegation that throws a retryable code: provider errors inside the agent loop end as reports, so it
  takes an evaluator handed to the worker service, or a worker service handed to the workflow service,
  that lets such an error out. `executeInWorktree` throws an evaluator's error again unless a signal is up.
- Recovery of an approved workflow that is both cancelled and past its deadline records a timeout where an
  uninterrupted `approve` records a cancellation. In every other case the two agree.
- A lease more than a day old can be taken over by another host while its holder is alive.
- Files of dead processes can close a workflow for good. Every attempt gives up when its listing returns
  more than 128 names, before it judges any of them, and when it meets a staging file that is not yet
  whole, whoever wrote it. A workflow that all processes have left can be leased again exactly when fewer
  than 128 files are left behind and no staging file among them is half written; both ways of failing are
  reached by crashes alone.
- An evaluation event is refused exactly when one evaluator fails a dimension that another leaves unknown.
  For every run whose tests failed, a second evaluator that cannot tell about the tests is enough: the
  `EvaluationCompleted` append is refused, and the delegation throws instead of returning a report.
- `isRunLinked` is met by every completed report a delegation returns whose patch was kept. Its patch is
  recorded as applied exactly from the states NotRequested and ApplicationRejected, when every check holds
  and every write succeeds. In ApplicationPending, ApplicationApproved and Applied a further application
  of the patch can succeed and is never recorded: a request or an approval whose outcome was not recorded,
  by a stop of the process or a failed write, closes the history to every later one.
- The digest chain protects every event but the last ones: a journal without its last files still reads.
- Under the quality strategy a default worker is first whatever the evidence only while no priority is
  more than 19 above its own.
- Tool output limits below 24 bytes are exceeded by the truncation marker, and a leading byte-order mark
  is lost in truncation.
- A workflow journal holds at most 144 events and a delegation's journal at most 8,755, so the caps of 512
  and 10,000 are never met by these writers.

## Model

| member | source | states |
|---|---|---|
| WorkflowModel.AcceptedPrefix | src/workflow/event-model.ts:146-253 | every nonempty beginning of a history the acceptor takes is one it takes, so a journal cut off at any event still replays |
| WorkflowModel.CompletedIsFinal | src/workflow/event-model.ts:146-253 | no event can follow WorkflowCompleted |
| WorkflowInvariants.StepPreserves | src/workflow/event-model.ts:288-438 | every event the acceptor takes keeps its state invariant: status and running stage agree, the stage reached has what it needs, every counter is within its limit, and attempts sum to transitions |
| WorkflowInvariants.AcceptedState | src/workflow/event-model.ts:146-253 | that invariant holds after every accepted history |
| WorkflowInvariants.RetryCountersAgree | src/workflow/service.ts:1554-1563 | what the service recounts from the events and what the acceptor keeps in its projection are the same number on every accepted history, for every stage but repair, and within the retry limit |
| WorkflowInvariants.WorkflowBounds | src/workflow/event-model.ts:288-384 | on every accepted history the attempts sum to the transition count, at most maxTransitions; repairs and approval requests stay within their limits; events other than dependency reports number at most 2*maxTransitions + 2*(maxRepairAttempts+1) + 2 and never more than 142 |
| WorkflowLineage.AcceptedLineage | src/workflow/event-model.ts:321-438 | at every point of an accepted history the current candidate has the build, test and review chain its stage calls for, and a running stage was started by the last event from that candidate |
| WorkflowLineage.ApprovalLineage | src/workflow/event-model.ts:288-438 | a history ending completed delivers the run of its last completed stage past planning; since the last completed implement or repair every configured test and then review completed, each started from the run before it; that run was requested for approval and approved by the next event |
| WorkflowWriter.StageResultRefines | src/workflow/service.ts:827-943 | in every running state and for every report or thrown error, the WorkflowStageCompleted event built from stageResult is accepted if and only if the outcome is recordable: no retry without a report, a task named, a patch delivered by a completed stage past planning unless no other run is the candidate, no repair of a policy violation or of planning, and a failure code of 1 to 200 characters |
| WorkflowWriter.StageResultRefinesHistory | src/workflow/service.ts:774-790 | the same over histories: with retries recounted from the timeline read before the start event, the completion extends every accepted history exactly for the recordable outcomes |
| WorkflowWriter.CompletionGoesOn | src/workflow/service.ts:872-899 | a completed stage that has the patch it needs is recorded as completed, on its way to the one stage the acceptor takes behind it |
| WorkflowWriter.MissingCandidateEnds | src/workflow/service.ts:882-892 | a completed stage past planning without a patch, whose run is not the candidate, fails the workflow for the missing candidate |
| WorkflowWriter.FailureGoesOn | src/workflow/service.ts:903-942 | a failed or blocked stage is tried again whenever the acceptor would take that, else repaired whenever there is a patch and the acceptor would take that, and only else ends the workflow; only a planning stage is sent to a repair that is refused |
| WorkflowWriter.SignalEnds | src/workflow/service.ts:840-870 | a cancel, and then a passed deadline, end every stage whatever it came back with |
| WorkflowWriter.ThrownStatus | src/workflow/service.ts:1565-1584 | a thrown stage error is an abort, a timeout, a policy violation exactly for five words in its code, and a failure otherwise |
| WorkflowWriter.RetryableCodes | src/workflow/transitions.ts:35-39 | retryable are the codes of providers and two of the worker |
| WorkflowWriter.RepairableCodes | src/workflow/transitions.ts:41-45 | repairable are three codes of validation and evaluation |
| WorkflowWriter.PatchlessCompletionRefused | src/workflow/service.ts:882-892 | a concrete refusal, in a reachable history: a completed review without a patch while another run is the candidate |
| WorkflowWriter.RetryWithoutReport | src/workflow/event-model.ts:346-348 | an error without a report whose code is retryable, and names no policy, is refused in a reachable history |
| WorkflowWriter.ReportlessRetryRefused | src/workflow/event-model.ts:346-348 | a concrete refusal with PROVIDER_HTTP_ERROR, thrown out of a delegation by an evaluator that asks a provider |
| WorkflowWriter.AbsentWord | src/workflow/service.ts:1572-1579 | includes is false where no index shows the first three letters of the word |
| WorkflowDiscipline.RecoveryMatchesLoop | src/workflow/service.ts:1182-1246 | when the last stage completion named no next stage, recovery after a crash closes the workflow with the verdict the uninterrupted loop would have written, for every cancel and deadline state |
| WorkflowDiscipline.RecoveryMatchesApprove | src/workflow/service.ts:1248-1344 | for a decision that leads to no repair, with the evidence still valid, recovery and approve write the same verdict except exactly for an approval found both cancelled and past its deadline |
| WorkflowDiscipline.EndsAsItsStage | src/workflow/service.ts:1539-1552 | a workflow ends as its last stage did and with its failure code, except that a policy violation blocks it |
| WorkflowDiscipline.DisciplinedPrefix | src/workflow/service.ts:446-825 | stopping the service between any two appends leaves a journal that meets everything the service relies on |
| WorkflowDiscipline.OutcomePending | src/workflow/service.ts:646-652 | a workflow that has no stage left and is not finished has an outcome fixed by its last event, so the loop never meets a missing stage |
| WorkflowDiscipline.FixedIsIdle | src/workflow/service.ts:1182-1246 | when the last event fixed the outcome, no stage is running and the outcome can be written |
| WorkflowDiscipline.DependencyReports | src/workflow/service.ts:506-560 | a journal the service writes reports at most one wait for dependencies and one release |
| WorkflowDiscipline.NotBegun | src/workflow/service.ts:506-560 | before its work begins an unfinished workflow is pending or waits for a dependency |
| WorkflowDiscipline.DependencyBlocksWork | src/workflow/service.ts:553-559 | while a workflow waits for a dependency no stage of it has started |
| WorkflowDiscipline.DisciplinedLength | src/workflow/journal.ts:40 | a journal the service writes holds at most 144 events, so its cap of 512 is never met |
| WorkflowDiscipline.DependencyReportsUnbounded | src/workflow/event-model.ts:254-275 | the acceptor alone bounds nothing of the kind: dependency reports may alternate for ever |
| WorkflowService.CanStart | src/workflow/event-model.ts:288-319 | in every reachable state with a worker stage due and transitions left, the start event the service builds is accepted, uses one transition, and the repair limit is not in the way |
| WorkflowService.CanClose | src/workflow/event-model.ts:414-438 | a verdict that agrees with the state is accepted and ends the workflow |
| WorkflowService.CanDecide | src/workflow/event-model.ts:386-412 | a decision on a waiting workflow is accepted and leaves the candidate alone |
| WorkflowService.CanInterrupt | src/workflow/event-model.ts:211-223 | a running stage can always be put back to pending |
| WorkflowService.CanReport | src/workflow/event-model.ts:254-275 | an idle workflow takes the dependency report that changes its state |
| WorkflowService.CanRequestApproval | src/workflow/event-model.ts:227-242 | a workflow at its approval takes the request for its current candidate |
| WorkflowService.ClosesAsFixed | src/workflow/service.ts:791-811 | what the loop closes a stage result with is how the outcome fixed by its event is closed |
| WorkflowService.Service.constructor | src/workflow/service.ts:99-147 | a valid definition starts a journal the service can run, with nothing delegated yet |
| WorkflowService.Service.Append | src/workflow/journal.ts:203-261 | the journal grows by exactly an event the acceptor takes, or not at all; a failing write may or may not have published it |
| WorkflowService.Service.Complete | src/workflow/service.ts:1083-1098 | a verdict that may close the state is never refused |
| WorkflowService.Service.Close | src/workflow/service.ts:1083-1098 | closes the workflow with one event, for a verdict that is warranted by a raised signal, the outcome the last event fixed, evidence that does not hold, no transition left, or a failed dependency |
| WorkflowService.Service.CompleteBeforeDeadline | src/workflow/service.ts:1100-1138 | a raised cancel or a passed deadline replaces the verdict, in that order; a verdict with a warrant is the only event written |
| WorkflowService.Service.AppendWithSignal | src/workflow/service.ts:1140-1180 | the event is kept from being written exactly by a raised signal |
| WorkflowService.Service.AppendStage | src/workflow/service.ts:764-786 | under the stage signal a cancel keeps the event from being written, and a passed deadline does or does not, as its timer may lag the clock |
| WorkflowEvidence.ScanEvidence | src/workflow/service.ts:1280-1314 | the scan of the workflow's own history succeeds exactly when every stage that names a run has its start, a run of its own and an intact stored report, and one of them produced the candidate |
| WorkflowEvidence.StartsFound | src/workflow/service.ts:1429-1447 | in an accepted history every completed stage has its start, so a stage contract is always found |
| WorkflowEvidence.CandidateOriginates | src/workflow/service.ts:1297-1313 | at an approval, and once approved, an accepted history shows the stage its candidate came from |
| WorkflowEvidence.EvidenceIsReports | src/workflow/service.ts:1248-1344 | so at an approval the evidence holds exactly when no run served two stages and every stored report bears its stage out |
| WorkflowService.Service.ValidateCandidate | src/workflow/service.ts:1248-1344 | succeeds exactly on evidence that holds, unless a signal is raised; a deadline found passed at its beginning closes as timed out, and after that a cancel goes before the deadline and both before invalid evidence |
| WorkflowService.Service.ScanUnderSignal | src/workflow/service.ts:1280-1341 | a signal raised before the scan ends it, one raised in its midst may, and without one it succeeds exactly on evidence that holds |
| WorkflowService.Service.CloseInvalid | src/workflow/service.ts:1315-1341 | evidence that does not hold blocks the workflow, unless a signal takes over |
| WorkflowService.Service.CloseFixed | src/workflow/service.ts:1227-1244 | a fixed outcome is closed outright if cancelled or timed out, before the deadline otherwise |
| WorkflowService.Service.RecoverApproval | src/workflow/service.ts:1191-1209 | an approval found recorded completes exactly on evidence that still holds, unless a signal is raised, and is closed by one event either way |
| WorkflowService.Service.RecoverPendingTerminal | src/workflow/service.ts:1182-1246 | handles exactly the journals whose last event fixed the outcome, and closes them with the recovery verdict |
| WorkflowService.Service.CheckDependencies | src/workflow/service.ts:1047-1081 | answers ready only when every dependency completed, waiting or failed by the first one that has not, and neither once work began |
| WorkflowService.Service.AwaitDependencies | src/workflow/service.ts:506-560 | goes on exactly with all dependencies completed while no signal is raised and no write fails; a failed dependency then closes the workflow with one event |
| WorkflowService.Service.InterruptActive | src/workflow/service.ts:460-475 | a stage left running by a crash is put back by one event, which names the cancel, the deadline or the resumption, in this order |
| WorkflowService.Service.WaitForDependencies | src/workflow/service.ts:512-541 | an unfinished dependency leaves the workflow waiting, reported once, or closed for a raised signal |
| WorkflowService.Service.RequestApproval | src/workflow/service.ts:584-622 | the approval is asked for exactly on valid evidence while no signal is raised and no write fails; otherwise the workflow is closed |
| WorkflowService.Service.RunApproval | src/workflow/service.ts:583-645 | without a signal and a failed write an approval already asked for is left alone, one on valid evidence is asked for, and invalid evidence blocks the workflow |
| WorkflowService.Service.GiveUp | src/workflow/service.ts:653-663 | a workflow that has no transition left, whose branch evidence does not hold or whose dependency failed is closed by one event, unless a signal takes over |
| WorkflowService.Service.BeginStage | src/workflow/service.ts:665-822 | without a signal and a failed write the next event starts the stage that is due |
| WorkflowService.Service.StartStage | src/workflow/service.ts:665-737 | the start is accepted and takes one transition, under an identifier of its own; only a signal or a failed write keeps it from being written |
| WorkflowService.Service.ValidateBranch | src/workflow/service.ts:1371-1387 | without a signal the evidence of the branch is accepted exactly when it holds |
| WorkflowEvidence.BranchFails | src/workflow/service.ts:1371-1427 | it fails exactly if the last stage completion or decision is a failed stage that led here and whose run is not borne out by its stored report |
| WorkflowService.Service.RunStage | src/workflow/service.ts:646-822 | a stage that is due, with a transition left and its branch evidence, is started by the next event unless a signal or a failed write is in the way, and else the workflow is closed with a warrant; the only refusal is an unrecordable outcome |
| WorkflowService.Service.Round | src/workflow/service.ts:561-823 | one round of the loop, approval or stage: it comes to rest with a warrant, takes a transition, or throws only for a signal or a failed write |
| WorkflowService.Service.RecordStage | src/workflow/service.ts:764-789 | the completion written is the one stageResult computes from what the delegation came back with, and a deadline passed before counts; it is refused only when unrecordable |
| WorkflowService.Service.CloseStage | src/workflow/service.ts:791-811 | a result without a next stage is closed with the loop verdict |
| WorkflowService.Service.FinishStage | src/workflow/service.ts:764-822 | after a completion that fixed the outcome, exactly one closing event follows, with the verdict that outcome calls for |
| WorkflowService.Service.Loop | src/workflow/service.ts:561-824 | the run loop terminates, by transitions left; undisturbed it starts the stage that is due and ends waiting for approval, closed with a warrant, or at an unrecordable outcome |
| WorkflowService.Service.RunOpen | src/workflow/service.ts:485-825 | a raised signal closes the workflow; undisturbed, a failed dependency closes it and a stage that is due is started by the next event; a return means waiting, or ended with a warrant |
| WorkflowService.Service.RunWithLease | src/workflow/service.ts:446-825 | from any resumable journal: errors are thrown only for a signal or a failed write, and a return means waiting for an approval or an unfinished dependency, or ended with a warrant; undisturbed a stage left running is resumed, a stage that is due is started by the next event, and an outcome fixed before a crash is closed by one event with the recovery verdict |
| WorkflowService.Service.FinalizeInterruptedRun | src/workflow/service.ts:1467-1502 | after a thrown abort an unfinished workflow ends cancelled, after a timeout timed out, with the running stage interrupted first |
| WorkflowService.Service.Run | src/workflow/service.ts:148-213 | never lets an abort or a timeout escape, throws otherwise only for a failed write, and without one returns only waiting, or ended with a warrant; a signal raised before ends the workflow |
| WorkflowService.Service.DecideRepair | src/workflow/service.ts:289-347 | a rejection with repairs left sends the workflow to its repair stage by one event unless a signal is raised or a write fails |
| WorkflowService.Service.DecideFinally | src/workflow/service.ts:289-330 | any other decision is recorded and closed by the next event with the approve verdict, undisturbed with exactly these two |
| WorkflowService.Service.Decide | src/workflow/service.ts:289-347 | on valid evidence a rejection with repairs and transitions left leads to the repair stage, and every other decision is closed by the next event; behind the recorded rejection a raised signal closes the workflow |
| WorkflowService.Service.ApproveWaiting | src/workflow/service.ts:275-330 | undisturbed, an approval on valid evidence completes the workflow, a rejection with repairs and transitions left leads to repair, any other fails it, and invalid evidence blocks it; nothing else completes |
| WorkflowService.Service.Approve | src/workflow/service.ts:215-356 | decides only a waiting workflow; a signal raised before closes it undecided; undisturbed, exactly an approval backed by valid evidence completes and exactly a rejection with repairs and transitions left leads to repair |
| WorkflowService.Service.CancelWorkflow | src/workflow/service.ts:358-411 | ends an unfinished workflow cancelled, interrupting a running stage first, unless a write fails, and leaves a finished one alone |
| WorkflowProjector.Record.ProjectStageCompletedEvent | src/workflow/event-model.ts:321-384 | the field updates of a stage completion are the acceptor step, and a refusal changes nothing |
| WorkflowProjector.Record.CheckStageCompleted | src/workflow/event-model.ts:326-362 | the conditions, checked on the fields one after the other, are those of the acceptor step |
| WorkflowProjector.Record.ProjectStageStarted | src/workflow/event-model.ts:288-319 | likewise for a stage start |
| WorkflowProjector.Record.ProjectApprovalDecidedEvent | src/workflow/event-model.ts:386-412 | likewise for a decision |
| WorkflowProjector.Record.ProjectWorkflowCompleted | src/workflow/event-model.ts:414-438 | likewise for the completion |
| WorkflowProjector.ProjectWorkflowEvent | src/workflow/event-model.ts:146-253 | clone and update: the result is a fresh record equal to the acceptor step, and the record given is untouched |
| WorkflowProjector.ReplayLoop | src/workflow/journal.ts:464-509 | the replay loop computes the fold of the acceptor |
| TaskModel.AcceptedPrefix | src/artifacts/task-event-model.ts:506-810 | every nonempty beginning of an accepted history is accepted |
| TaskPatchGate.AcceptedHistory | src/artifacts/task-event-model.ts:506-810 | attempt projections agree with the events of their run and the other way round; an ended history ends right behind its last attempt; an open application is the end of the history |
| TaskPatchGate.PatchGate | src/artifacts/task-event-model.ts:682-810 | PatchApplied occurs at most once and last, right behind the approval and the request of the same run; that run is the last attempt, completed, with a patch of that many files, a successful worker, no failed validation or evaluation, and a passed evaluation where the policy is strict |
| TaskPatchGate.ValidEvents | src/artifacts/task-event-model.ts:51-504 | every event of an accepted history is well formed |
| TaskHistory.FindIsFirst | src/artifacts/task-journal.ts:274-289 | the lookup of an event by kind and run finds the first one, and nothing exactly when there is none |
| TaskHistory.LinkedIsApplicable | src/artifacts/task-journal.ts:271-349 | a completed run whose report its history bears out is the one the acceptor lets be requested, with the patch and file count of the report |
| TaskHistory.LinkedIsRecordable | src/artifacts/task-journal.ts:290-299 | a linked patch has a file count an application may record |
| TaskHistory.OneCompletion | src/artifacts/task-event-model.ts:758-774 | an accepted history completes once, at its end |
| TaskEvaluation.EvaluateIsValid | src/evaluation/deterministic.ts:32-136 | the built-in evaluator always returns a valid result, and fails every run that did not complete |
| TaskEvaluation.CollectFinds | src/worker/service.ts:1911-1920 | a dimension is collected exactly when some evaluator reports it with that status |
| TaskEvaluation.CollectWithinLimit | src/worker/service.ts:1911-1920 | what is collected has no duplicates and at most 13 entries |
| TaskEvaluation.OutcomeMatchesDimensions | src/worker/service.ts:1895-1909 | the aggregated outcome is failed exactly when a failed dimension is collected, and passed exactly when neither a failed nor an unknown one is |
| TaskEvaluation.EvaluationEventValid | src/artifacts/task-event-model.ts:346-408 | the evaluation event is well formed exactly when no evaluator fails a dimension another leaves unknown |
| TaskEvaluation.DeterministicAgrees | src/evaluation/deterministic.ts:343-353 | the built-in evaluator alone always yields a well-formed event |
| TaskEvaluation.EvaluatesEach | src/evaluation/deterministic.ts:32-48 | the built-in evaluator reports each of its nine dimensions, in their order |
| TaskEvaluation.EvaluationMeans | src/evaluation/deterministic.ts:94-280 | each built-in dimension fails or is left unknown exactly for its reason, and the outcome is failed by any failed dimension, else inconclusive by any unknown one, else passed |
| TaskEvaluation.ContradictionRefused | src/artifacts/task-event-model.ts:394 | every run whose tests failed has its evaluation event refused once a second evaluator leaves the tests unknown |
| TaskAttempt.ClassifyRunError | src/worker/service.ts:1933-1955 | a run error never classifies as completed or blocked, and as cancelled exactly when the outer signal is up |
| TaskAttempt.PolicyErrors | src/worker/service.ts:1793-1800 | without a signal a policy is violated exactly by a code that says so or names a limit, and a run times out exactly by a timeout error |
| TaskAttempt.FallbackCodes | src/worker/service.ts:2018-2024 | a fallback is for the errors of providers and for the empty answer |
| TaskAttempt.TurnErrorMeans | src/worker/agent-loop.ts:86-149 | a turn is in order exactly if it asks for tools within the limits or answers with text; otherwise the thrown error, oversized text, too many calls and the empty answer stop the loop with their codes |
| TaskAttempt.LoopFinishes | src/worker/agent-loop.ts:74-177 | the loop finishes exactly if some turn within its limit is a final answer, every earlier one asks for tools within the limits, and the context never grows too large |
| TaskAttempt.NoTrouble | src/worker/service.ts:798-1190 | where every evaluator answers, an undisturbed attempt has no failure code exactly if its loop finishes, nothing violates the policy, the patch can be recorded, every required command ran and passed, the worktree stayed intact, an implementation changed something, and the evaluators let it pass |
| TaskAttempt.FailedCommandIsReported | src/worker/service.ts:1059-1065 | without earlier trouble one failed command is what the attempt fails for |
| TaskService.AttemptTakes | src/artifacts/task-event-model.ts:619-720 | an event of the running attempt is accepted whenever the attempt takes it, and moves nothing but the attempt |
| TaskService.AttemptEnds | src/artifacts/task-event-model.ts:721-757 | an attempt whose recorded parts agree with its status is completed and becomes the last attempt |
| TaskAttempt.OutcomeOfFirst | src/worker/service.ts:1895-1909 | a run that did not complete fails its evaluation, whatever further evaluators say |
| TaskAttempt.Judge | src/worker/service.ts:1172-1184 | the status after evaluation agrees with its outcome and policy |
| TaskAttempt.AfterCollection | src/worker/service.ts:965-987 | after patch collection the run is still completed exactly when it was, nothing was thrown and no policy was violated; status and failure code agree |
| TaskService.RequestOpens | src/artifacts/task-event-model.ts:775-785 | a linked patch may be requested exactly while no application is open or done, and then approved and applied |
| TaskService.DeliveredByCompletion | src/artifacts/task-journal.ts:271-349 | with the completion appended, a completed report is linked exactly when its patch was kept or nothing changed |
| TaskService.Service.constructor | src/artifacts/task-journal.ts:100-178 | a task journal starts with its creation |
| TaskService.Service.Append | src/artifacts/task-journal.ts:180-239 | the journal grows by exactly an event the acceptor takes, or not at all; a failing write may or may not have published it |
| TaskService.Service.CallTools | src/worker/agent-loop.ts:179-222 | every tool call of a turn is observed once, in order, and refused only for its name |
| TaskService.Service.RecordTurn | src/worker/agent-loop.ts:86-149 | the observation of a turn is accepted, or malformed by more than 32 calls |
| TaskService.Service.TakeTurn | src/worker/agent-loop.ts:74-177 | one turn: its event is accepted for every answer of the provider, or malformed by more than 32 calls; the loop stops exactly with the error the turn calls for |
| TaskService.Service.RunAgentLoop | src/worker/agent-loop.ts:57-229 | for every provider and tool behaviour the loop emits only accepted events, at most one per iteration and tool call, and any stop leaves the attempt where its worker may be completed; it finishes or stops as its first turn that does not go on says |
| TaskService.Service.StartAttempt | src/worker/service.ts:766-794 | the next attempt starts with a run of its own |
| TaskService.Service.CompleteWorker | src/worker/service.ts:932-941 | the worker outcome agrees with the status, and its event is never refused |
| TaskService.Service.CollectPatch | src/worker/service.ts:943-987 | whatever collection throws, an append included, ends as a status; a violation ends the completed status, and a still completed run has recorded exactly the patch found |
| TaskService.Service.RunEach | src/worker/service.ts:1315-1335 | the required commands run one after the other, until one throws |
| TaskService.Service.RunRequired | src/worker/service.ts:991-1027 | undisturbed, the run stays completed exactly if no command throws, and else has the code of the first that does; a container that may still run costs the patch |
| TaskService.Service.RunCommands | src/worker/service.ts:992-1065 | a run stays completed only if every required command ran, none failed and the worktree is intact; undisturbed its code is that of the thrown error, the integrity check or VALIDATION_COMMAND_FAILED, and one failed command is enough |
| TaskService.Service.Validate | src/worker/service.ts:989-1080 | the validation event is skipped without commands, passed exactly if the run is still completed behind them, and failed otherwise, with the number of commands that ran; it is never refused |
| TaskService.Service.EvaluateAll | src/worker/service.ts:1815-1829 | undisturbed it succeeds exactly when every further evaluator answers validly, with the built-in result first and theirs in order; never once a signal is up |
| TaskService.Service.EvaluateRun | src/worker/service.ts:1118-1169 | an interrupted evaluation is repeated for the run as it then is, so a run that is not completed always ends with a failed evaluation and a failure code; undisturbed the results are those of the evaluators |
| TaskService.Service.RecordEvaluation | src/worker/service.ts:1191-1205 | the evaluation event is refused only when the evaluators contradict each other |
| TaskService.Service.RecordAttempt | src/worker/service.ts:1272-1295 | the attempt event is never refused |
| TaskService.Service.FinishAttempt | src/worker/service.ts:798-1298 | a started attempt runs to a report and one last attempt with its status; undisturbed the report has the code of the first trouble met and is completed exactly without one, and an agent loop that stopped leaves its own status; it throws only for a signal, a failed write, an unreliable environment or an event it malformed |
| TaskService.Service.JudgeRun | src/worker/service.ts:1082-1190 | the judged status agrees with the evaluation and policy, an implementation without changes is blocked, and the patch is kept exactly unless its size fails |
| TaskService.Service.ConcludeAttempt | src/worker/service.ts:1082-1298 | the part behind validation: a completed report has exactly the events that bear it out, and an undisturbed one the code of the evaluation |
| TaskService.Service.CompleteTask | src/worker/service.ts:245-265 | the completion of the last attempt is never refused, and is kept back only by a failed write or, for a completed run, by a cancel or the deadline |
| TaskService.Service.ExecuteInWorktree | src/worker/service.ts:761-1313 | one attempt adds at most 1,094 events; undisturbed its report has the code of the first trouble met |
| TaskService.Service.TryCandidate | src/worker/service.ts:279-312 | a fallback is taken exactly where the acceptor lets the next worker start, fallback is allowed and an attempt is left |
| TaskService.Service.NextCandidate | src/worker/service.ts:268-312 | one pass of the route loop: a raised cancel throws, a passed deadline starts no attempt |
| TaskService.Service.RunRoute | src/worker/service.ts:266-325 | the loop over the route: accepted events only, at most 8,755 in all; a return behind an attempt worth a fallback means that fallback is off, every attempt was made, or the deadline has passed |
| TaskService.Service.Delegate | src/worker/service.ts:159-331 | for every provider, tool, command, evaluator, abort and deadline behaviour, and any limits and policy of each worker, the journal stays accepted; the one refusal is an event malformed by the environment; a delegation throws otherwise only for a signal, the deadline, a failed write or an unreliable environment; it returns with its last attempt on record, no worker left that should have been tried before the deadline, one attempt without fallback, and undisturbed the first trouble of the last attempt; a returned completed report is linked exactly when its patch was kept |
| TaskService.Service.PreparePatchHistory | src/worker/service.ts:628-736 | an unlinked report is rejected; a recorded request opens the application |
| TaskService.NoObstacle | src/worker/service.ts:509-585 | nothing stops an application exactly when the run completed with a patch and the repository, the stored patch and its digest answer all ten checks as they should |
| TaskService.ObstacleIsFirst | src/worker/service.ts:509-585 | the first check that fails, in the order they are made, gives the error |
| TaskService.Service.RecordApproval | src/worker/service.ts:587-597 | the approval of a recorded request is accepted, and recorded exactly when its write succeeds |
| TaskService.Service.RecordApplied | src/worker/service.ts:603-616 | the record of an approved patch is accepted, and recorded exactly when its write succeeds |
| TaskService.Service.ApplyReport | src/worker/service.ts:502-626 | the patch is applied exactly when no check stops it and git takes it; approval, application or rejection follow a recorded request in order |
| TaskService.Service.ApplyRun | src/worker/service.ts:452-500 | a patch reaches the repository exactly for a completed run whose report its history bears out, when every check holds and git applies it; that is recorded exactly when besides no earlier application is open or done, there is room for three events and the three writes succeed; what one call adds is a beginning of request, approval, application, or of a rejection |
| TaskApplication.LinkedStays | src/artifacts/task-journal.ts:271-349 | recorded applications take nothing from the link between a report and its history |
| TaskApplication.RequestRefusesRequest | src/artifacts/task-event-model.ts:775-785 | behind a recorded request the report is still linked and no further request is accepted |
| TaskApplication.ApprovalRefusesRequest | src/artifacts/task-event-model.ts:786-789 | nor behind its approval |
| TaskApplication.StuckRequest | src/artifacts/task-event-model.ts:775-785 | a concrete delegated history, linked and with nothing applied, that takes no request any more |
| TaskProjector.AttemptRecord.ProjectLoopEvent | src/artifacts/task-event-model.ts:619-662 | the field updates of turns and tool calls are the acceptor step |
| TaskProjector.AttemptRecord.ProjectAttemptCompleted | src/artifacts/task-event-model.ts:721-757 | the end of the attempt, checked on the fields, is the acceptor step |
| TaskProjector.AttemptRecord.ProjectEvidence | src/artifacts/task-event-model.ts:663-757 | likewise for the events behind the loop |
| TaskProjector.Record.Clone | src/artifacts/task-event-model.ts:812-835 | the clone has attempts of its own |
| TaskProjector.Record.ProjectApplicationEvent | src/artifacts/task-event-model.ts:775-808 | likewise for patch applications |
| TaskProjector.Record.ProjectEvent | src/artifacts/task-event-model.ts:562-809 | the switch over the event type is the acceptor step |
| TaskProjector.ProjectTaskEvent | src/artifacts/task-event-model.ts:506-810 | clone and update: the result is fresh and equal to the acceptor step, and neither the record given nor its attempts are touched |
| WorkflowLease.RunIsSafe | src/workflow/lease.ts:36-178 | over every interleaving of steps, crashes and time, and every listing that returns what was there throughout and anything that ever was: claims of live holders stay, stale lists hold only dead or expired claims, and of two attempts that look, the later one keeps the other in view |
| WorkflowLease.LookStep | src/workflow/lease.ts:58-67 | a look at the directory begins with the claims there are, and loses none from view but of the gone |
| WorkflowLease.MutualExclusion | src/workflow/lease.ts:36-178 | two attempts of live processes hold the lease together only if the claim of one is more than a day old and an attempt has run on another host than its own |
| WorkflowLease.MutualExclusionOnOneHost | src/workflow/lease.ts:264-276 | on one host there is never a second live holder |
| WorkflowLease.RemovalByHolder | src/workflow/lease.ts:148-168 | another attempt's files are removed only by the holder, and only those of a dead process or an expired claim |
| LeaseProgress.TakesLease | src/workflow/lease.ts:36-178 | a new attempt acting alone ends up holding the lease, with its claim the only file, whenever every file it finds is stale, fewer than 128 files are there and no staging file is half written |
| LeaseProgress.RemovalEnds | src/workflow/lease.ts:148-168 | behind a scan that found only stale files the reconciliation and the removals come to their end with the lease held |
| LeaseProgress.RemoteLeaseExpires | src/workflow/lease.ts:264-276 | a run in which a second host holds the lease after a day, and has removed the claim of the first, while the first still holds it |
| LeaseProgress.ListingExceeds | src/workflow/lease.ts:60-63 | no listing succeeds that finds 128 files of dead processes beside its own claim |
| LeaseProgress.TooManyClaimsBlock | src/workflow/lease.ts:58-67 | once 128 files of dead processes are there and no live attempt has listed them, no live attempt holds the lease after any continuation |
| LeaseProgress.HalfWrittenBlocks | src/workflow/lease.ts:77-91 | once a dead process has left a half-written staging file that no live attempt has got past, no live attempt holds the lease after any continuation |
| LeaseProgress.CanBeRegained | src/workflow/lease.ts:36-178 | a workflow whose attempts are all dead can be leased again after some continuation exactly when fewer than 128 files are left and none is a half-written staging file |
| LeaseProgress.ClaimsPileUp | src/workflow/lease.ts:55-63 | any number of claims is left by as many processes that end after publishing; from 128 on nobody can take the lease again |
| LeaseProgress.HalfWrittenLeft | src/workflow/lease.ts:83-91 | one process that ends while it writes its claim keeps the lease from everybody for good |
| Publication.RunIsSafe | src/artifacts/secure-fs-helper.ts:188-267 | over every interleaving of helper, parent, other publishers, kills and disk flushes: contents reach the disk before the name, and the name is ours only by a granted commit |
| Publication.NeverPartial | src/artifacts/secure-fs-helper.ts:197-248 | at every moment, and after a power failure at every moment, the final name is absent, somebody else's, or has exactly the bytes to be published |
| Publication.ReturnedIsPublished | src/artifacts/secure-io.ts:230-286 | a normal return means the bytes are there, and outlast a power failure if this helper put them there |
| Publication.AbortedIsNotPublished | src/artifacts/secure-io.ts:230-286 | an abort error means this call has published nothing and never will |
| Publication.NeverReplaces | src/artifacts/secure-fs-helper.ts:223-226 | a file that was there before is never replaced |
| Publication.Later | src/artifacts/secure-fs-helper.ts:248-266 | a name once taken keeps its file and a finished call stays finished |
| Publication.PublishesUndisturbed | src/artifacts/secure-fs-helper.ts:188-267 | an undisturbed call publishes the contents, in whatever pieces they are written, makes them durable, takes its staging link away and returns |
| PublicationReader.PublishedFile.ReadBoundedHandle | src/artifacts/secure-io.ts:612-643 | returns the whole file for every pattern of short reads, or the size error |
| PublicationReader.PublishedFile.ReadRegular | src/artifacts/secure-io.ts:102-125 | exact bytes, the size error, or the hard-link error, and never the last once the staging link is gone |
| PublicationReader.PublishedFile.ReadPublication | src/artifacts/secure-io.ts:127-213 | for every moment at which the staging link disappears, the bytes come back |
| PublicationReader.PublishedFile.ReadPublished | src/artifacts/secure-io.ts:214-228 | a linked file always reads, however its publisher goes on |
| JournalNames.DigitsSort | src/artifacts/task-journal.ts:627-638 | zero-padded digits sort as the numbers do |
| JournalNames.NamesSort | src/workflow/journal.ts:629-631 | event file names sort by sequence whatever their digests |
| JournalNames.NameRoundTrip | src/workflow/journal.ts:467-470 | a written name parses to its sequence and digest |
| JournalNames.ListingIsUnique | src/workflow/journal.ts:441-452 | a directory has one sorted listing |
| Journal.EventNamesAreLawful | src/workflow/journal.ts:629-631 | the file names of both journals meet what the replay relies on |
| Journal.ReadTimeline | src/workflow/journal.ts:404-519 | the replay loop computes the read of the sorted listing, errors included |
| Journal.RoundTrip | src/workflow/journal.ts:404-519 | whatever history the journal holds, its directory listing reads back exactly that history, its fold, its last digest and its size |
| Journal.FileFound | src/workflow/journal.ts:629-631 | every event is found under its own name |
| JournalStore.StorableSnoc | src/workflow/journal.ts:217-245 | the checks of append come to whether the extended history may be stored |
| JournalStore.Store.ReadBack | src/workflow/journal.ts:404-519 | a published journal reads as its history, an unpublished one as not found |
| JournalStore.Store.Create | src/workflow/journal.ts:148-201 | creation writes the event and then the marker; a stop in between leaves nothing readable |
| JournalStore.Store.CheckNext | src/workflow/journal.ts:217-245 | the checks pass exactly when the extended history may be stored |
| JournalStore.Store.Append | src/workflow/journal.ts:203-261 | append succeeds exactly when the extended history may be stored and the write does not fail, and then adds that event and nothing else |
| JournalChain.ReadIsChained | src/workflow/journal.ts:464-509 | what was read is a digest chain from the first event on |
| JournalChain.SharedFile | src/workflow/journal.ts:489-497 | two chains that share one file agree up to it, as long as no two of their own files share a digest |
| JournalChain.SameTipSameChain | src/workflow/journal.ts:489-497 | two such chains that end in the same digest are the same |
| JournalChain.ChainIsKept | src/workflow/journal.ts:464-509 | a directory that reads and has the last file of a chain begins with that chain and its events |
| JournalChain.SameTipSameHistory | src/artifacts/task-journal.ts:655-702 | two journals that read and end in the same digest hold the same events, as long as no two of their own files share a digest |
| JournalChain.LastFileKeepsAll | src/artifacts/task-journal.ts:655-702 | a directory that reads and still has a journal's last file begins with all of that journal |
| JournalChain.TamperingIsNoticed | src/artifacts/task-journal.ts:655-702 | without the contents of an earlier file such a directory does not read |
| JournalChain.SameTipSameWritten | src/workflow/journal.ts:224-238 | two histories written by append that end in the same digest are the same |
| JournalChain.WrittenIsKept | src/workflow/journal.ts:404-519 | whatever became of the directory, if it reads and has the last file written, it begins with the history written |
| JournalStore.SameTipSameStore | src/workflow/journal.ts:203-261 | two stores whose journals end in the same digest hold the same files |
| JournalStore.StoreIsKept | src/workflow/journal.ts:404-519 | reading what became of a store gives its history and perhaps more, or an error, as long as its last file is there |
| JournalChain.TruncationReads | src/artifacts/task-journal.ts:655-702 | the end is open: without its last files a journal reads as the history up to there |
| JournalReplay.WorkflowFoldIsReplay | src/workflow/journal.ts:501-508 | the journal replay is the fold the workflow results are about |
| JournalReplay.TaskFoldIsReplay | src/artifacts/task-journal.ts:699-701 | the journal replay is the fold the patch gate is about |
| Glob.StepMeans | src/lib/glob.ts:72-156 | one pass of the loop preserves the meaning of the pattern: a state matches exactly if it accepts or one of the states it pushes matches |
| Glob.KeyIsInjective | src/lib/glob.ts:52-59 | no two states share a key, and every key is below 2(|value|+1)(|pattern|+1) |
| Glob.NothingMatches | src/lib/glob.ts:51-159 | once the stack is empty no visited state can match |
| Glob.MatchNormalizedGlob | src/lib/glob.ts:41-160 | answers what the pattern means, spends at most the state limit, and fails only with less budget than that |
| Glob.MatchGlob | src/lib/glob.ts:19-27 | the same for normalized paths |
| Glob.MatchesAnyGlob | src/lib/glob.ts:29-35 | answers whether any pattern matches, and fails only with less budget than all patterns may spend |
| Glob.AnyMatchesMeans | src/lib/glob.ts:29-35 | that answer is that one of the patterns matches |
| Framing.AnswersOfLines | src/mcp/protocol.ts:45-104 | a stream written line by line is answered line by line, each by its own size and text |
| Framing.FirstLine | src/mcp/protocol.ts:56-90 | the first newline ends the first line, and what follows is answered as if it stood alone |
| Framing.BufferSegment | src/mcp/protocol.ts:61-70 | the buffered pieces are the line so far, or its size is exceeded for good |
| Framing.TakeSegment | src/mcp/protocol.ts:57-70 | the piece up to the next newline, or to the end of the chunk, joins the line |
| Framing.Feed | src/mcp/protocol.ts:56-90 | a chunk answers exactly the lines it completes |
| Framing.Listen | src/mcp/protocol.ts:45-104 | for every way of cutting the input into chunks the answers are those of the whole stream |
| Semaphore.Semaphore.Acquire | src/lib/semaphore.ts:34-72 | takes a free permit, or queues behind everyone; permits are conserved and none is free while somebody waits |
| Semaphore.Semaphore.HandleAbort | src/lib/semaphore.ts:53-66 | an aborted waiter leaves the queue and is rejected, unless settled before |
| Semaphore.Semaphore.Settle | src/lib/semaphore.ts:76-95 | a settled waiter leaves the queue and the order of the others stays |
| Semaphore.Semaphore.Offer | src/lib/semaphore.ts:75-97 | the first waiter gets the permit exactly when its signal is not up, and leaves the queue either way |
| Semaphore.Semaphore.Release | src/lib/semaphore.ts:74-100 | the first waiter without a raised signal gets the permit, those before it are rejected, nobody overtakes an earlier waiter, and nothing is settled twice |
| Semaphore.Semaphore.RaiseSignals | src/lib/semaphore.ts:52-68 | raised signals alone settle nobody |
| Utf8.DecodesOne | src/lib/text.ts:5-18 | by section 4 of RFC 3629 a character's bytes decode to it whatever follows, and no shorter beginning of them decodes |
| Utf8.DecodesAll | src/lib/text.ts:5-18 | encoded text decodes to itself |
| Utf8.CutDoesNotDecode | src/lib/text.ts:9-15 | encoded text cut inside a character does not decode |
| Utf8.FitIsLongest | src/lib/text.ts:5-18 | the prefix kept is the longest that fits, and leaves at most three bytes over |
| Utf8.DecodeUtf8Prefix | src/lib/text.ts:5-18 | for any bytes, the longest beginning within the limit that decodes |
| Utf8.PrefixOfText | src/lib/text.ts:5-18 | for encoded text that is the longest whole-character prefix less a leading byte-order mark, at most three steps back |
| Utf8.WholeUnlessMarked | src/lib/text.ts:5-18 | the prefix comes back whole exactly when it does not begin with a byte-order mark |
| Utf8.LimitToolOutput | src/worker/tool-executor.ts:416-427 | output that is cut stays within the limit exactly when the limit leaves room for the marker |
| Utf8.MarkerSize | src/worker/tool-executor.ts:423 | the marker takes 24 bytes |
| Trace.TimelineStep | src/observability/service.ts:676-744 | on an accepted timeline the switch never raises the invalid-history error, and keeps every event so far in the span it belongs to |
| Trace.ProjectTaskTrace | src/observability/service.ts:661-806 | on every accepted timeline the projection succeeds: spans ordered by first event, identifiers distinct, each span exactly the events that belong to it |
| Trace.EachEventOnce | src/observability/service.ts:661-806 | each event behind the creation is a source of exactly one span |
| Trace.PageAt | src/observability/service.ts:1713-1741 | the page behind any cursor begins right after its span |
| Trace.FollowCursors | src/observability/service.ts:1713-1741 | following nextCursor from the first page visits every span once, in order |
| Router.AggregateIsPossible | src/provider/routing-evidence.ts:168-214 | aggregated counts are within the sample size |
| Router.ScorePerformance | src/provider/router.ts:223-236 | the performance adjustment stays within its weight |
| Router.ComparisonsCancel | src/provider/router.ts:259-283 | what one worker gains in a comparison the other loses |
| Router.AdjustmentsSumToZero | src/provider/router.ts:238-284 | before rounding the rank adjustments sum to zero |
| Router.AdjustmentWithin | src/provider/router.ts:238-284 | every rank adjustment, rounded, stays within its weight |
| RouterOrder.Adjust | src/provider/router.ts:173-221 | evidence moves a score by at most the sum of the strategy weights |
| RouterOrder.SortsFirst | src/provider/router.ts:389-411 | a candidate that precedes every other comes first |
| RouterOrder.PreferredIsFirst | src/provider/router.ts:88-109 | an eligible preferred worker is always first |
| RouterOrder.DefaultIsFirst | src/provider/router.ts:349-394 | with no preference an eligible default worker is first under balanced, cost and latency, whatever the evidence |
| RouterOrder.QualityDefaultIsFirst | src/provider/router.ts:349-394 | under quality it is first for every evidence exactly when no priority is more than 19 above its own |
| RouterOrder.QualityContrast | src/provider/router.ts:223-236 | the evidence that overturns it otherwise, with every sample evaluated |
| RouterOrder.QualityDefaultWithoutEvidence | src/provider/router.ts:349-394 | and without evidence exactly when none is more than 49 above |
| RouterOrder.RouteIsRecordable | src/provider/router.ts:41-153 | every route offers only workers that qualify, and is a RouteSelected event the task journal takes |
| RouterPreference.CostAsksForCheap | src/provider/router.ts:349-389 | with equal priorities, under cost the cheaper worker scores higher, and of two as cheap the faster one |
| RouterPreference.LatencyAsksForFast | src/provider/router.ts:349-389 | under latency the faster worker scores higher, and of two as fast the cheaper one |
| RouterPreference.BalancedAsksForBoth | src/provider/router.ts:349-389 | under balanced what is cheaper and not slower, or faster and not dearer, scores higher |
| RouterPreference.QualityAsksForPriority | src/provider/router.ts:349-389 | under quality exactly the higher priority scores higher |
| RouterPreference.PriorityDecides | src/provider/router.ts:349-389 | under every strategy the priority decides between workers of the same tiers |
| RouterPreference.SortSorts | src/provider/router.ts:391-411 | the candidates come out in the order of the comparison, for every total order on ids |
| RouterPreference.SuitedIsOfferedFirst | src/provider/router.ts:88-109 | without evidence the worker that suits the strategy better is offered before the other, unless that one is preferred or the default |
| RouterPreference.RouteMeans | src/provider/router.ts:41-153 | the whole route: with two workers that qualify there is one, and it offers the better suited first |
| RouterPreference.AttemptsOfRoute | src/provider/router.ts:132-139 | one attempt without fallback or a second candidate, and otherwise as many as the tightest of the three limits |
| RouterPreference.NoRoute | src/provider/router.ts:45-130 | there is no route exactly for evidence of another mode, a preferred worker that is missing or does not qualify, or no worker that does, in this order |
| RouterPreference.QualifiesMeans | src/provider/router.ts:328-347 | exactly a configured worker of this role or of none, with every capability and within both tiers, qualifies |
| RouterPreference.LowerGains | src/provider/router.ts:259-283 | a comparison is won exactly by the lower value, as far as both are backed by samples, and lost by the other |
| RouterPreference.LowestGains | src/provider/router.ts:259-283 | the lowest of all values gains by its comparisons |
| RouterPreference.PerformanceGrows | src/provider/router.ts:223-236 | with as many samples, more successes and passes never lower the adjustment |
| RouterPreference.PerformanceCounts | src/provider/router.ts:223-236 | successes and passes count alike, and runs never evaluated count by their successes |
| RouterPreference.ConfidenceGrows | src/provider/router.ts:286-288 | confidence grows evenly up to twenty samples and is full from there on |
| RouterPreference.CheapOrFast | src/provider/router.ts:173-284 | of two workers with a flawless past, one cheaper and one faster, cost prefers the first and latency the second by 120,000, and the other strategies neither |

## Left out

- Event envelopes and payload shapes: UUID, ISO-date and string-length checks that the data types express, timings, token counts and costs; schema versions 1 to 6 of task events.
- The definition's stage texts (objectives, criteria, commands, routing policies), which no transition reads.
- Redaction, credential detection and command classification: regular expressions; the journal takes the credential check as a parameter.
- Git, worktrees, command execution, provider adapters and prompts: their answers are arbitrary in `WorkflowService` and `TaskService`.
- HarnessError codes are taken to have 1 to 200 characters, as every literal code in the program has; a longer one would make a WorkerCompleted event malformed.
- Several workflow services in one process (the map of active workflows) and the waiting half of cancel; the lease covers exclusion between processes.
- TaskService.Service.ApplyRun: each question to the repository, the stored patch and git has an arbitrary answer, and errors of reading the report itself are not covered; reports of schema versions 1 and 2.
- TaskService.Service.FinishAttempt: of an attempt with several troubles the failure code is stated, and the status only where the agent loop stopped and the collection found nothing, or nothing changed.
- TaskEvaluation.EvaluateIsValid: evidence texts of a dimension and the classification of commands into dimensions are parameters.
- Publication: the directory identity checks are taken to succeed or to make the helper fail, and removal of published files is covered only as far as the lease needs it.
- PublicationReader.PublishedFile.ReadPublished: models reads that begin once the final link exists; before that a reader gets not-found or the hard-link error.
- Journal listing, staging entries beside the event files, reconciliation passes, the routing index and the paging of journal lists.
- Collisions of SHA-256 and of truncated span identifiers; two clocks that disagree between hosts in the lease, and lock files this program did not write.
- LeaseProgress.CanBeRegained: does not model a process id that a later process on the same host reuses, which makes a dead process's claim look live for as long.
- WorkflowLease.MutualExclusion: hosts are told apart by name, so two machines with one hostname count as one; names a directory listing skips although they were there from its beginning to its end.
- WorkflowService.Service.ValidateCandidate: the check of one stage's stored report against its task history is an arbitrary set of stages whose report is intact, the same for the whole run.
- Trace payloads, workflow traces and metrics; a timeline that grows between two pages.
- Router.AggregateIsPossible: medians and averages are parameters, and rationals stand for floating-point numbers; the collection of observations from timelines.
- Framing: the dispatch of requests behind the lines, and UTF-8 decoding of their bytes.
- src/lib/repository-lock.ts, configuration, policy composition, report storage, command-line and protocol schemas.
