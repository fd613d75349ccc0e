/** The workflow journal's event alphabet and the acceptor that replays it
    (src/workflow/event-model.ts, src/workflow/transitions.ts).

    A rejected event is `None`: the two error codes the
    acceptor can raise differ only in who asked. */
module WorkflowModel {
  import opened Domain
  import opened Wrappers

  datatype StageName = Plan | Implement | Test | Review | Repair

  /** A stage a workflow can be at: a worker stage or the approval gate. */
  datatype Target = Worker(stage: StageName) | Approval

  datatype WorkflowStatus =
    | Pending
    | Running
    | WaitingForDependency
    | WaitingForApproval
    | Ended(outcome: RunStatus)

  datatype Decision = Approved | Rejected

  datatype Reason = Resume | Cancel | Deadline

  datatype StageConfig = StageConfig(retryLimit: nat)

  datatype Definition = Definition(
    plan: Option<StageConfig>,
    implement: StageConfig,
    test: Option<StageConfig>,
    review: Option<StageConfig>,
    repair: Option<StageConfig>,
    maxTransitions: nat,
    maxRepairAttempts: nat,
    dependencyWorkflowIds: seq<Id>)

  datatype Event =
    | WorkflowCreated(definition: Definition)
    | DependencyStateChanged(ready: bool)
    | StageStarted(stage: StageName, executionId: Id, attemptNumber: nat, sourceRunId: Option<Id>)
    | StageInterrupted(stage: StageName, executionId: Id, reason: Reason)
    | StageCompleted(stage: StageName, executionId: Id, taskId: Option<Id>, runId: Option<Id>,
                     status: RunStatus, failureCode: Option<string>,
                     candidateRunId: Option<Id>, nextStage: Option<Target>)
    | ApprovalRequested(candidate: Id)
    | ApprovalDecided(decision: Decision, nextStage: Option<Target>)
    | WorkflowCompleted(status: RunStatus, failureCode: Option<string>, candidateRunId: Option<Id>)

  datatype Projection = Projection(
    definition: Definition,
    status: WorkflowStatus,
    currentStage: Option<Target>,
    activeExecutionId: Option<Id>,
    candidateRunId: Option<Id>,
    transitionCount: nat,
    repairAttemptCount: nat,
    stageAttempts: map<StageName, nat>,
    retryTransitions: map<StageName, nat>,
    approvalRequested: bool,
    approvalDecision: Option<Decision>,
    lastFailureCode: Option<string>)

  /** A map lookup with `?? 0`. */
  function Count(m: map<StageName, nat>, s: StageName): nat {
    if s in m then m[s] else 0
  }

  function StageOf(d: Definition, s: StageName): Option<StageConfig> {
    match s
    case Plan => d.plan
    case Implement => Some(d.implement)
    case Test => d.test
    case Review => d.review
    case Repair => d.repair
  }

  predicate ValidStage(s: StageName, c: Option<StageConfig>) {
    c.Some? ==> c.value.retryLimit <= 2 && (s == Repair ==> c.value.retryLimit == 0)
  }

  predicate ValidDefinition(d: Definition) {
    && 1 <= d.maxTransitions <= 64
    && d.maxRepairAttempts <= 5
    && |d.dependencyWorkflowIds| <= 16
    && Distinct(d.dependencyWorkflowIds)
    && ValidStage(Plan, d.plan)
    && ValidStage(Implement, Some(d.implement))
    && ValidStage(Test, d.test)
    && ValidStage(Review, d.review)
    && ValidStage(Repair, d.repair)
    && (d.maxRepairAttempts == 0 <==> d.repair.None?)
  }

  /** The parts of validateWorkflowEvent that the data types do not already express. */
  predicate ValidData(e: Event) {
    match e
    case WorkflowCreated(d) => ValidDefinition(d)
    case StageStarted(_, _, attemptNumber, _) => 1 <= attemptNumber <= 64
    case StageCompleted(_, _, _, _, _, failureCode, _, _) => ValidCode(failureCode)
    case WorkflowCompleted(status, failureCode, _) => status != PolicyViolation && ValidCode(failureCode)
    case _ => true
  }

  // ----- src/workflow/transitions.ts -----

  function NextCandidateStage(d: Definition): Target {
    if d.test.Some? then Worker(Test)
    else if d.review.Some? then Worker(Review)
    else Approval
  }

  function NextSuccessfulStage(d: Definition, s: StageName): Target {
    match s
    case Plan => Worker(Implement)
    case Test => if d.review.None? then Approval else Worker(Review)
    case Review => Approval
    case _ => NextCandidateStage(d)
  }

  predicate IsRetryable(code: string) {
    "PROVIDER_" <= code || code == "WORKER_EMPTY_RESPONSE" || code == "WORKER_NO_CHANGES"
  }

  predicate IsRepairable(code: string) {
    code == "VALIDATION_COMMAND_FAILED" || code == "EVALUATION_FAILED" || code == "EVALUATION_INCONCLUSIVE"
  }

  // ----- src/workflow/event-model.ts -----

  predicate IsAllowedNextStage(p: Projection, stage: StageName, status: RunStatus,
                               failureCode: Option<string>, nextStage: Option<Target>)
  {
    var d := p.definition;
    if status == Cancelled || status == TimedOut || status == PolicyViolation then
      nextStage.None?
    else if status != Completed then
      if nextStage.None? then true
      else if failureCode.None? then false
      else if nextStage == Some(Worker(Repair)) then
        && d.repair.Some?
        && IsRepairable(failureCode.value)
        && p.repairAttemptCount + (if stage == Repair then 1 else 0) < d.maxRepairAttempts
      else if nextStage == Some(Worker(stage)) then
        var limit := if StageOf(d, stage).Some? then StageOf(d, stage).value.retryLimit else 0;
        IsRetryable(failureCode.value) && Count(p.retryTransitions, stage) < limit
      else false
    else
      match stage
      case Plan => nextStage == Some(Worker(Implement))
      case Implement => nextStage == Some(NextCandidateStage(d))
      case Test => nextStage == Some(if d.review.None? then Approval else Worker(Review))
      case Review => nextStage == Some(Approval)
      case Repair => nextStage == Some(NextCandidateStage(d))
  }

  function ProjectCreated(d: Definition): Projection {
    Projection(d, Pending, Some(Worker(if d.plan.None? then Implement else Plan)), None, None,
               0, 0, map[], map[], false, None, None)
  }

  function ProjectDependency(p: Projection, ready: bool): Option<Projection> {
    if || p.definition.dependencyWorkflowIds == []
       || p.activeExecutionId.Some?
       || p.approvalRequested
       || (!ready && p.status != Pending)
       || (ready && p.status != WaitingForDependency)
    then None
    else Some(p.(status := if ready then Pending else WaitingForDependency))
  }

  function ProjectStarted(p: Projection, stage: StageName, executionId: Id,
                          attemptNumber: nat, sourceRunId: Option<Id>): Option<Projection>
  {
    var expectedSource := if stage == Plan || stage == Implement then None else p.candidateRunId;
    if || StageOf(p.definition, stage).None?
       || p.currentStage != Some(Worker(stage))
       || p.activeExecutionId.Some?
       || p.approvalRequested
       || attemptNumber != Count(p.stageAttempts, stage) + 1
       || (stage == Repair && p.repairAttemptCount >= p.definition.maxRepairAttempts)
       || sourceRunId != expectedSource
       || p.transitionCount >= p.definition.maxTransitions
    then None
    else Some(p.(stageAttempts := p.stageAttempts[stage := attemptNumber],
                 transitionCount := p.transitionCount + 1,
                 activeExecutionId := Some(executionId),
                 status := Running))
  }

  function ProjectInterrupted(p: Projection, stage: StageName, executionId: Id): Option<Projection> {
    if p.activeExecutionId != Some(executionId) || p.currentStage != Some(Worker(stage)) then None
    else Some(p.(activeExecutionId := None, status := Pending))
  }

  predicate StageCompletionConsistent(p: Projection, e: Event)
    requires e.StageCompleted?
  {
    && p.currentStage == Some(Worker(e.stage))
    && p.activeExecutionId == Some(e.executionId)
    && (e.runId.None? <==> e.taskId.None?)
    && (e.status == Completed ==> e.runId.Some? && e.failureCode.None?)
    && (e.status != Completed ==> e.failureCode.Some?)
    && (e.status == Completed && e.stage != Plan ==> e.candidateRunId.Some? && e.candidateRunId == e.runId)
    && (e.stage == Plan ==> e.candidateRunId == p.candidateRunId)
    && (e.status != Completed && e.nextStage != Some(Worker(Repair)) ==> e.candidateRunId == p.candidateRunId)
    && (e.status != Completed && e.nextStage == Some(Worker(e.stage)) ==> e.runId.Some?)
    && (e.status != Completed && e.nextStage == Some(Worker(Repair)) ==>
          e.runId.Some? && e.candidateRunId == e.runId)
    && IsAllowedNextStage(p, e.stage, e.status, e.failureCode, e.nextStage)
  }

  function ProjectStageCompleted(p: Projection, e: Event): Option<Projection>
    requires e.StageCompleted?
  {
    if !StageCompletionConsistent(p, e) then None
    else
      var retried := e.stage != Repair && e.nextStage == Some(Worker(e.stage));
      Some(p.(activeExecutionId := None,
              retryTransitions :=
                if retried then p.retryTransitions[e.stage := Count(p.retryTransitions, e.stage) + 1]
                else p.retryTransitions,
              repairAttemptCount := p.repairAttemptCount + (if e.stage == Repair then 1 else 0),
              candidateRunId := e.candidateRunId,
              currentStage := e.nextStage,
              lastFailureCode := e.failureCode,
              status := Pending))
  }

  function ProjectApprovalRequested(p: Projection, candidate: Id): Option<Projection> {
    if || p.currentStage != Some(Approval)
       || p.activeExecutionId.Some?
       || p.candidateRunId != Some(candidate)
       || p.approvalRequested
    then None
    else Some(p.(approvalRequested := true, approvalDecision := None, status := WaitingForApproval))
  }

  function ProjectApprovalDecided(p: Projection, decision: Decision, nextStage: Option<Target>): Option<Projection> {
    if || !p.approvalRequested
       || p.status != WaitingForApproval
       || p.currentStage != Some(Approval)
       || (decision == Approved && nextStage.Some?)
       || (decision == Rejected && nextStage.Some? && nextStage != Some(Worker(Repair)))
       || (nextStage == Some(Worker(Repair)) &&
           (p.definition.repair.None? || p.repairAttemptCount >= p.definition.maxRepairAttempts))
    then None
    else Some(p.(approvalRequested := false,
                 approvalDecision := Some(decision),
                 currentStage := nextStage,
                 status := Pending,
                 lastFailureCode := if decision == Rejected then Some("WORKFLOW_APPROVAL_REJECTED")
                                    else p.lastFailureCode))
  }

  function ProjectCompleted(p: Projection, status: RunStatus, failureCode: Option<string>,
                            candidateRunId: Option<Id>): Option<Projection>
  {
    if || p.activeExecutionId.Some?
       || (p.approvalRequested && status == Completed)
       || candidateRunId != p.candidateRunId
       || (status == Completed &&
           (p.approvalDecision != Some(Approved) || p.candidateRunId.None? || failureCode.Some?))
       || (status != Completed && failureCode.None?)
    then None
    else Some(p.(currentStage := None, approvalRequested := false,
                 status := Ended(status), lastFailureCode := failureCode))
  }

  /** projectWorkflowEvent behind validateWorkflowEvent: the one step of the acceptor. */
  function Project(current: Option<Projection>, e: Event): Option<Projection> {
    if !ValidData(e) then None
    else if e.WorkflowCreated? then
      if current.Some? then None else Some(ProjectCreated(e.definition))
    else if current.None? || current.value.status.Ended? then None
    else
      var p := current.value;
      match e
      case DependencyStateChanged(ready) => ProjectDependency(p, ready)
      case StageStarted(s, x, n, source) => ProjectStarted(p, s, x, n, source)
      case StageInterrupted(s, x, _) => ProjectInterrupted(p, s, x)
      case StageCompleted(_, _, _, _, _, _, _, _) => ProjectStageCompleted(p, e)
      case ApprovalRequested(c) => ProjectApprovalRequested(p, c)
      case ApprovalDecided(d, n) => ProjectApprovalDecided(p, d, n)
      case WorkflowCompleted(s, f, c) => ProjectCompleted(p, s, f, c)
  }

  /** The left fold of `Project` over a history; `None` when some event is rejected. */
  function Replay(es: seq<Event>): Option<Projection> {
    if es == [] then None
    else
      var before := es[..|es| - 1];
      if before != [] && Replay(before).None? then None
      else Project(Replay(before), es[|es| - 1])
  }

  predicate Accepted(es: seq<Event>) {
    Replay(es).Some?
  }

  /** One appended event, when the history before it is accepted. */
  lemma ReplaySnoc(es: seq<Event>, e: Event)
    requires Accepted(es)
    ensures Replay(es + [e]) == Project(Replay(es), e)
  {
    assert (es + [e])[..|es + [e]| - 1] == es;
  }

  /** Every nonempty prefix of an accepted history is accepted. */
  lemma {:induction false} AcceptedPrefix(es: seq<Event>, k: nat)
    requires Accepted(es) && 0 < k <= |es|
    ensures Accepted(es[..k])
  {
    if k < |es| {
      var before := es[..|es| - 1];
      AcceptedPrefix(before, k);
      assert before[..k] == es[..k];
    } else {
      assert es[..k] == es;
    }
  }

  /** A finished workflow is final: nothing can be appended to its history. */
  lemma {:induction false} CompletedIsFinal(es: seq<Event>, more: seq<Event>)
    requires Accepted(es) && Replay(es).value.status.Ended?
    requires Accepted(es + more)
    ensures more == []
  {
    if more != [] {
      AcceptedPrefix(es + more, |es| + 1);
      assert (es + more)[..|es| + 1] == es + [more[0]];
      ReplaySnoc(es, more[0]);
    }
  }
}
