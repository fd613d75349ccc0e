/** The task journal's event alphabet, schema version 7, and the acceptor that replays it
    (src/artifacts/task-event-model.ts). */
module TaskModel {
  import opened Domain
  import opened Wrappers

  type WorkerId = string

  datatype ValidationOutcome = ValidationPassed | ValidationFailed | ValidationSkipped

  datatype EvaluationOutcome = EvaluationPassed | EvaluationFailed | EvaluationInconclusive

  datatype EvaluationPolicy = DefaultPolicy | StrictPolicy

  datatype Dimension =
    | WorkerExecution | Tests | Lint | Typecheck | ChangedFilesScope | AcceptanceCriteria | PatchSize
    | NewWarnings | SecurityPolicyCompliance | Correctness | Maintainability | ArchitectureFit | TestQuality

  datatype Event =
    | TaskCreated
    | RouteSelected(candidateWorkerIds: seq<WorkerId>, maxAttempts: nat)
    | WorkerStarted(runId: Id, workerId: WorkerId, attemptNumber: nat)
    | ModelTurnCompleted(runId: Id, iteration: nat, succeeded: bool, toolCallCount: nat)
    | ToolCalled(runId: Id, toolName: string, iteration: nat)
    | WorkerCompleted(runId: Id, succeeded: bool, failureCode: Option<string>)
    | PatchProduced(runId: Id, patchSha256: nat, patchBytes: nat, changedFileCount: nat)
    | ValidationCompleted(runId: Id, validation: ValidationOutcome, commandCount: nat)
    | EvaluationCompleted(runId: Id, evaluatorIds: seq<string>, evaluation: EvaluationOutcome,
                          policy: EvaluationPolicy, failedDimensions: seq<Dimension>,
                          unknownDimensions: seq<Dimension>)
    | AttemptCompleted(runId: Id, status: RunStatus, failureCode: Option<string>)
    | TaskCompleted(lastRunId: Option<Id>, status: RunStatus)
    | PatchApplicationRequested(runId: Id)
    | PatchApproved(runId: Id)
    | PatchApplied(runId: Id, changedFileCount: nat)
    | PatchApplicationRejected(runId: Id, reason: string)

  datatype Attempt = Attempt(
    runId: Id,
    workerId: WorkerId,
    attemptNumber: nat,
    lastModelIteration: nat,
    modelFailed: bool,
    modelTerminal: bool,
    expectedToolCallCount: nat,
    observedToolCallCount: nat,
    workerOutcome: Option<bool>,
    patch: Option<(nat, nat)>,
    validation: Option<ValidationOutcome>,
    evaluation: Option<(EvaluationOutcome, EvaluationPolicy)>,
    status: Option<RunStatus>,
    failureCode: Option<string>)

  datatype ApplicationStatus = NotRequested | ApplicationPending | ApplicationApproved | Applied | ApplicationRejected

  /** `status` is `None` while the task is in progress. */
  datatype Projection = Projection(
    status: Option<RunStatus>,
    attemptCount: nat,
    latestRunId: Option<Id>,
    route: Option<(seq<WorkerId>, nat)>,
    activeAttempt: Option<Attempt>,
    lastAttempt: Option<Attempt>,
    knownRunIds: set<Id>,
    applicationRunId: Option<Id>,
    application: ApplicationStatus)

  predicate Disjoint<T(==)>(a: seq<T>, b: seq<T>) {
    forall i :: 0 <= i < |a| ==> a[i] !in b
  }

  /** The parts of validateTaskEvent that the data types do not already express. */
  predicate ValidData(e: Event) {
    match e
    case TaskCreated => true
    case RouteSelected(workers, maxAttempts) =>
      && 0 < |workers| <= 64
      && (forall i :: 0 <= i < |workers| ==> Bounded(workers[i], 64))
      && Distinct(workers)
      && 1 <= maxAttempts <= 8
      && maxAttempts <= |workers|
    case WorkerStarted(_, workerId, attemptNumber) => Bounded(workerId, 64) && 1 <= attemptNumber <= 8
    case ModelTurnCompleted(_, iteration, succeeded, toolCallCount) =>
      1 <= iteration <= 64 && toolCallCount <= 32 && (!succeeded ==> toolCallCount == 0)
    case ToolCalled(_, toolName, iteration) => Bounded(toolName, 100) && 1 <= iteration <= 64
    case WorkerCompleted(_, succeeded, failureCode) => ValidCode(failureCode) && (succeeded <==> failureCode.None?)
    case PatchProduced(_, _, patchBytes, changedFileCount) => patchBytes > 0 && 1 <= changedFileCount <= 10_000
    case ValidationCompleted(_, outcome, commandCount) =>
      && commandCount <= 20
      && (outcome == ValidationSkipped ==> commandCount == 0)
      && (outcome == ValidationPassed ==> commandCount != 0)
    case EvaluationCompleted(_, evaluatorIds, outcome, _, failed, unknown) =>
      && 0 < |evaluatorIds| <= 8
      && (forall i :: 0 <= i < |evaluatorIds| ==> Bounded(evaluatorIds[i], 100))
      && Distinct(evaluatorIds)
      && evaluatorIds[0] == "deterministic-v1"
      && |failed| <= 16 && Distinct(failed)
      && |unknown| <= 16 && Distinct(unknown)
      && Disjoint(failed, unknown)
      && (outcome == EvaluationPassed ==> failed == [] && unknown == [])
      && (outcome == EvaluationFailed ==> failed != [])
      && (outcome == EvaluationInconclusive ==> failed == [] && unknown != [])
    case AttemptCompleted(_, _, failureCode) => ValidCode(failureCode)
    case PatchApplied(_, changedFileCount) => 1 <= changedFileCount <= 10_000
    case PatchApplicationRejected(_, reason) => Bounded(reason, 200)
    case _ => true
  }

  predicate IsFallbackCode(code: Option<string>) {
    code.Some? && ("PROVIDER_" <= code.value || code.value == "WORKER_EMPTY_RESPONSE")
  }

  predicate IsFallbackEligible(a: Attempt) {
    a.status == Some(Failed) && IsFallbackCode(a.failureCode)
  }

  predicate IsPatchApplicationEvent(e: Event) {
    e.PatchApplicationRequested? || e.PatchApproved? || e.PatchApplied? || e.PatchApplicationRejected?
  }

  function Created(): Projection {
    Projection(None, 0, None, None, None, None, {}, None, NotRequested)
  }

  function NewAttempt(runId: Id, workerId: WorkerId, attemptNumber: nat): Attempt {
    Attempt(runId, workerId, attemptNumber, 0, false, false, 0, 0, None, None, None, None, None, None)
  }

  function ProjectStarted(p: Projection, runId: Id, workerId: WorkerId, attemptNumber: nat): Option<Projection> {
    if || p.route.None?
       || p.activeAttempt.Some?
       || runId in p.knownRunIds
       || attemptNumber != p.attemptCount + 1
       || attemptNumber > p.route.value.1
       || attemptNumber > |p.route.value.0|
       || p.route.value.0[attemptNumber - 1] != workerId
       || (p.lastAttempt.Some? && !IsFallbackEligible(p.lastAttempt.value))
    then None
    else Some(p.(activeAttempt := Some(NewAttempt(runId, workerId, attemptNumber)),
                 knownRunIds := p.knownRunIds + {runId},
                 attemptCount := attemptNumber,
                 latestRunId := Some(runId)))
  }

  /** The events of a running attempt, as changes to that attempt. */
  function ProjectAttempt(a: Attempt, e: Event): Option<Attempt> {
    match e
    case ModelTurnCompleted(_, iteration, succeeded, toolCallCount) =>
      if || a.workerOutcome.Some?
         || a.modelTerminal
         || a.observedToolCallCount != a.expectedToolCallCount
         || iteration != a.lastModelIteration + 1
      then None
      else Some(a.(lastModelIteration := iteration,
                   modelFailed := !succeeded,
                   modelTerminal := !succeeded || toolCallCount == 0,
                   expectedToolCallCount := toolCallCount,
                   observedToolCallCount := 0))
    case ToolCalled(_, _, iteration) =>
      if || a.workerOutcome.Some?
         || a.modelFailed
         || iteration != a.lastModelIteration
         || a.observedToolCallCount >= a.expectedToolCallCount
      then None
      else Some(a.(observedToolCallCount := a.observedToolCallCount + 1))
    case WorkerCompleted(_, succeeded, _) =>
      if || a.workerOutcome.Some?
         || a.observedToolCallCount != a.expectedToolCallCount
         || (a.modelFailed && succeeded)
         || (succeeded && (!a.modelTerminal || a.modelFailed))
      then None
      else Some(a.(workerOutcome := Some(succeeded)))
    case PatchProduced(_, sha, _, changedFileCount) =>
      if a.workerOutcome.None? || a.validation.Some? || a.patch.Some? then None
      else Some(a.(patch := Some((sha, changedFileCount))))
    case ValidationCompleted(_, outcome, _) =>
      if a.workerOutcome.None? || a.validation.Some? then None
      else Some(a.(validation := Some(outcome)))
    case EvaluationCompleted(_, _, outcome, policy, _, _) =>
      if a.validation.None? || a.evaluation.Some? then None
      else Some(a.(evaluation := Some((outcome, policy))))
    case AttemptCompleted(_, status, failureCode) =>
      if || a.validation.None?
         || a.evaluation.None?
         || (status == Completed &&
             (|| a.workerOutcome != Some(true)
              || a.validation == Some(ValidationFailed)
              || a.evaluation.value.0 == EvaluationFailed
              || a.evaluation.value == (EvaluationInconclusive, StrictPolicy)
              || failureCode.Some?))
         || (status != Completed &&
             a.evaluation.value.0 != EvaluationFailed &&
             !(status == Failed && a.evaluation.value == (EvaluationInconclusive, StrictPolicy) &&
               failureCode == Some("EVALUATION_INCONCLUSIVE")))
         || (status != Completed && failureCode.None?)
      then None
      else Some(a.(status := Some(status), failureCode := failureCode))
    case _ => None
  }

  function RunOf(e: Event): Option<Id> {
    match e
    case ModelTurnCompleted(r, _, _, _) => Some(r)
    case ToolCalled(r, _, _) => Some(r)
    case WorkerCompleted(r, _, _) => Some(r)
    case PatchProduced(r, _, _, _) => Some(r)
    case ValidationCompleted(r, _, _) => Some(r)
    case EvaluationCompleted(r, _, _, _, _, _) => Some(r)
    case AttemptCompleted(r, _, _) => Some(r)
    case _ => None
  }

  /** getActiveRun, the step of the attempt, and the handover of a completed attempt. */
  function ProjectRun(p: Projection, e: Event): Option<Projection> {
    if p.activeAttempt.None? || RunOf(e) != Some(p.activeAttempt.value.runId) then None
    else
      var a := ProjectAttempt(p.activeAttempt.value, e);
      if a.None? then None
      else if e.AttemptCompleted? then Some(p.(lastAttempt := a, activeAttempt := None))
      else Some(p.(activeAttempt := a))
  }

  function ProjectTaskCompleted(p: Projection, runId: Option<Id>, status: RunStatus): Option<Projection> {
    if p.route.None? || p.activeAttempt.Some? then None
    else if p.lastAttempt.None? && (runId.Some? || status != TimedOut) then None
    else if p.lastAttempt.Some? &&
            (runId != Some(p.lastAttempt.value.runId) || Some(status) != p.lastAttempt.value.status) then None
    else Some(p.(status := Some(status), latestRunId := if runId.Some? then runId else p.latestRunId))
  }

  predicate Applicable(p: Projection, runId: Id) {
    && p.status == Some(Completed)
    && p.lastAttempt.Some?
    && p.lastAttempt.value.runId == runId
    && p.lastAttempt.value.status == Some(Completed)
    && p.lastAttempt.value.patch.Some?
  }

  function ProjectApplication(p: Projection, e: Event): Option<Projection> {
    match e
    case PatchApplicationRequested(runId) =>
      if !Applicable(p, runId) || p.application !in {NotRequested, ApplicationRejected} then None
      else Some(p.(applicationRunId := Some(runId), application := ApplicationPending))
    case PatchApproved(runId) =>
      if p.applicationRunId != Some(runId) || p.application != ApplicationPending then None
      else Some(p.(application := ApplicationApproved))
    case PatchApplied(runId, changedFileCount) =>
      if || p.applicationRunId != Some(runId)
         || p.application != ApplicationApproved
         || p.lastAttempt.None?
         || p.lastAttempt.value.patch.None?
         || changedFileCount != p.lastAttempt.value.patch.value.1
      then None
      else Some(p.(application := Applied))
    case PatchApplicationRejected(runId, _) =>
      if p.applicationRunId != Some(runId) || p.application !in {ApplicationPending, ApplicationApproved} then None
      else Some(p.(application := ApplicationRejected))
    case _ => None
  }

  /** projectTaskEvent behind validateTaskEvent: the one step of the acceptor. */
  function Project(current: Option<Projection>, e: Event): Option<Projection> {
    if !ValidData(e) then None
    else if e.TaskCreated? then
      if current.Some? then None else Some(Created())
    else if current.None? then None
    else
      var p := current.value;
      if IsPatchApplicationEvent(e) then ProjectApplication(p, e)
      else if p.status.Some? then None
      else
        match e
        case RouteSelected(workers, maxAttempts) =>
          if p.route.Some? || p.activeAttempt.Some? || p.lastAttempt.Some? then None
          else Some(p.(route := Some((workers, maxAttempts))))
        case WorkerStarted(runId, workerId, n) => ProjectStarted(p, runId, workerId, n)
        case TaskCompleted(runId, status) => ProjectTaskCompleted(p, runId, status)
        case _ => ProjectRun(p, e)
  }

  /** The left fold of `Project` over a history; `None` when some event is rejected. */
  function Replay(es: seq<Event>): Option<Projection> {
    if es == [] then None
    else
      var before := es[..|es| - 1];
      if before != [] && Replay(before).None? then None
      else Project(Replay(before), es[|es| - 1])
  }

  predicate Accepted(es: seq<Event>) {
    Replay(es).Some?
  }

  lemma ReplaySnoc(es: seq<Event>, e: Event)
    requires Accepted(es)
    ensures Replay(es + [e]) == Project(Replay(es), e)
  {
    assert (es + [e])[..|es + [e]| - 1] == es;
  }

  /** Every nonempty prefix of an accepted history is accepted. */
  lemma {:induction false} AcceptedPrefix(es: seq<Event>, k: nat)
    requires Accepted(es) && 0 < k <= |es|
    ensures Accepted(es[..k])
  {
    if k < |es| {
      var before := es[..|es| - 1];
      AcceptedPrefix(before, k);
      assert before[..k] == es[..k];
    } else {
      assert es[..k] == es;
    }
  }
}
