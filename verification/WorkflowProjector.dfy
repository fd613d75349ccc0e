/** The acceptor as the source runs it: clone the current projection, then update the fields of the
    clone. Proved against the value-level step of WorkflowModel (src/workflow/event-model.ts). */
module WorkflowProjector {
  import opened Domain
  import opened Wrappers
  import opened WorkflowModel

  class Record {
    const definition: Definition
    var status: WorkflowStatus
    var currentStage: Option<Target>
    var activeExecutionId: Option<Id>
    var candidateRunId: Option<Id>
    var transitionCount: nat
    var repairAttemptCount: nat
    var stageAttempts: map<StageName, nat>
    var retryTransitions: map<StageName, nat>
    var approvalRequested: bool
    var approvalDecision: Option<Decision>
    var lastFailureCode: Option<string>

    function View(): Projection
      reads this
    {
      Projection(definition, status, currentStage, activeExecutionId, candidateRunId, transitionCount,
                 repairAttemptCount, stageAttempts, retryTransitions, approvalRequested, approvalDecision,
                 lastFailureCode)
    }

    /** The projection of WorkflowCreated, or a clone of another record. */
    constructor (p: Projection)
      ensures View() == p
    {
      definition := p.definition;
      status, currentStage, activeExecutionId := p.status, p.currentStage, p.activeExecutionId;
      candidateRunId, transitionCount := p.candidateRunId, p.transitionCount;
      repairAttemptCount, stageAttempts := p.repairAttemptCount, p.stageAttempts;
      retryTransitions, approvalRequested := p.retryTransitions, p.approvalRequested;
      approvalDecision, lastFailureCode := p.approvalDecision, p.lastFailureCode;
    }

    method ProjectDependencyStateChanged(ready: bool) returns (ok: bool)
      modifies this
      ensures ok == ProjectDependency(old(View()), ready).Some?
      ensures View() == if ok then ProjectDependency(old(View()), ready).value else old(View())
    {
      if || definition.dependencyWorkflowIds == []
         || activeExecutionId.Some?
         || approvalRequested
         || (!ready && status != Pending)
         || (ready && status != WaitingForDependency)
      {
        return false;
      }
      status := if ready then Pending else WaitingForDependency;
      return true;
    }

    method ProjectStageStarted(stage: StageName, executionId: Id, attemptNumber: nat, sourceRunId: Option<Id>)
      returns (ok: bool)
      modifies this
      ensures ok == ProjectStarted(old(View()), stage, executionId, attemptNumber, sourceRunId).Some?
      ensures View() == if ok then ProjectStarted(old(View()), stage, executionId, attemptNumber, sourceRunId).value
                        else old(View())
    {
      var previousAttempts := Count(stageAttempts, stage);
      var expectedSource := if stage == Plan || stage == Implement then None else candidateRunId;
      var attemptLimitReached := stage == Repair && repairAttemptCount >= definition.maxRepairAttempts;
      if || StageOf(definition, stage).None?
         || currentStage != Some(Worker(stage))
         || activeExecutionId.Some?
         || approvalRequested
         || attemptNumber != previousAttempts + 1
         || attemptLimitReached
         || sourceRunId != expectedSource
         || transitionCount >= definition.maxTransitions
      {
        return false;
      }
      stageAttempts := stageAttempts[stage := attemptNumber];
      transitionCount := transitionCount + 1;
      activeExecutionId := Some(executionId);
      status := Running;
      return true;
    }

    method ProjectStageInterrupted(stage: StageName, executionId: Id) returns (ok: bool)
      modifies this
      ensures ok == ProjectInterrupted(old(View()), stage, executionId).Some?
      ensures View() == if ok then ProjectInterrupted(old(View()), stage, executionId).value else old(View())
    {
      if activeExecutionId != Some(executionId) || currentStage != Some(Worker(stage)) {
        return false;
      }
      activeExecutionId := None;
      status := Pending;
      return true;
    }

    /** The conditions of a stage completion. */
    method CheckStageCompleted(e: Event) returns (ok: bool)
      requires e.StageCompleted?
      ensures ok == StageCompletionConsistent(View(), e)
    {
      var completed, repairing := e.status == Completed, e.nextStage == Some(Worker(Repair));
      if currentStage != Some(Worker(e.stage)) || activeExecutionId != Some(e.executionId) || e.runId.None? != e.taskId.None? {
        return false;
      }
      if completed {
        if e.runId.None? || e.failureCode.Some? { return false; }
        if e.stage != Plan && e.candidateRunId != e.runId { return false; }
      } else {
        if e.failureCode.None? || (e.nextStage == Some(Worker(e.stage)) && e.runId.None?) { return false; }
        if if repairing then e.runId.None? || e.candidateRunId != e.runId else e.candidateRunId != candidateRunId { return false; }
      }
      if e.stage == Plan && e.candidateRunId != candidateRunId { return false; }
      return IsAllowedNextStage(View(), e.stage, e.status, e.failureCode, e.nextStage);
    }

    /** The counters a stage completion moves. */
    method CountCompletion(stage: StageName, nextStage: Option<Target>)
      modifies this`retryTransitions, this`repairAttemptCount
      ensures repairAttemptCount == old(repairAttemptCount) + if stage == Repair then 1 else 0
      ensures retryTransitions ==
              if stage != Repair && nextStage == Some(Worker(stage))
              then old(retryTransitions)[stage := Count(old(retryTransitions), stage) + 1]
              else old(retryTransitions)
    {
      if stage != Repair && nextStage == Some(Worker(stage)) {
        retryTransitions := retryTransitions[stage := Count(retryTransitions, stage) + 1];
      }
      if stage == Repair {
        repairAttemptCount := repairAttemptCount + 1;
      }
    }

    method ProjectStageCompletedEvent(e: Event) returns (ok: bool)
      requires e.StageCompleted?
      modifies this
      ensures ok == ProjectStageCompleted(old(View()), e).Some?
      ensures View() == if ok then ProjectStageCompleted(old(View()), e).value else old(View())
    {
      ok := CheckStageCompleted(e);
      if !ok { return; }
      activeExecutionId := None;
      CountCompletion(e.stage, e.nextStage);
      candidateRunId := e.candidateRunId;
      currentStage := e.nextStage;
      lastFailureCode := e.failureCode;
      status := Pending;
    }

    method ProjectApprovalRequestedEvent(candidate: Id) returns (ok: bool)
      modifies this
      ensures ok == ProjectApprovalRequested(old(View()), candidate).Some?
      ensures View() == if ok then ProjectApprovalRequested(old(View()), candidate).value else old(View())
    {
      if || currentStage != Some(Approval)
         || activeExecutionId.Some?
         || candidateRunId != Some(candidate)
         || approvalRequested
      {
        return false;
      }
      approvalRequested := true;
      approvalDecision := None;
      status := WaitingForApproval;
      return true;
    }

    method ProjectApprovalDecidedEvent(decision: Decision, nextStage: Option<Target>) returns (ok: bool)
      modifies this
      ensures ok == ProjectApprovalDecided(old(View()), decision, nextStage).Some?
      ensures View() == if ok then ProjectApprovalDecided(old(View()), decision, nextStage).value else old(View())
    {
      if || !approvalRequested
         || status != WaitingForApproval
         || currentStage != Some(Approval)
         || (decision == Approved && nextStage.Some?)
         || (decision == Rejected && nextStage.Some? && nextStage != Some(Worker(Repair)))
         || (nextStage == Some(Worker(Repair)) &&
             (definition.repair.None? || repairAttemptCount >= definition.maxRepairAttempts))
      {
        return false;
      }
      approvalRequested := false;
      approvalDecision := Some(decision);
      currentStage := nextStage;
      status := Pending;
      if decision == Rejected {
        lastFailureCode := Some("WORKFLOW_APPROVAL_REJECTED");
      }
      return true;
    }

    method ProjectWorkflowCompleted(outcome: RunStatus, failureCode: Option<string>, candidate: Option<Id>)
      returns (ok: bool)
      modifies this
      ensures ok == ProjectCompleted(old(View()), outcome, failureCode, candidate).Some?
      ensures View() == if ok then ProjectCompleted(old(View()), outcome, failureCode, candidate).value else old(View())
    {
      if || activeExecutionId.Some?
         || (approvalRequested && outcome == Completed)
         || candidate != candidateRunId
         || (outcome == Completed &&
             (approvalDecision != Some(Approved) || candidateRunId.None? || failureCode.Some?))
         || (outcome != Completed && failureCode.None?)
      {
        return false;
      }
      currentStage := None;
      approvalRequested := false;
      status := Ended(outcome);
      lastFailureCode := failureCode;
      return true;
    }
  }

  /** projectWorkflowEvent: a fresh record with the event applied, or null. The record it was given is
      left alone, so a rejected append leaves the journal's projection as it was. */
  method ProjectWorkflowEvent(current: Record?, e: Event) returns (next: Record?)
    ensures next != null ==> fresh(next)
    ensures Project(if current == null then None else Some(current.View()), e)
         == if next == null then None else Some(next.View())
  {
    if !ValidData(e) { return null; }
    if e.WorkflowCreated? {
      if current != null { return null; }
      next := new Record(ProjectCreated(e.definition));
      return;
    }
    if current == null || current.status.Ended? { return null; }
    var clone := new Record(current.View());
    var ok;
    match e {
      case DependencyStateChanged(ready) => ok := clone.ProjectDependencyStateChanged(ready);
      case StageStarted(s, x, n, source) => ok := clone.ProjectStageStarted(s, x, n, source);
      case StageInterrupted(s, x, _) => ok := clone.ProjectStageInterrupted(s, x);
      case StageCompleted(_, _, _, _, _, _, _, _) => ok := clone.ProjectStageCompletedEvent(e);
      case ApprovalRequested(c) => ok := clone.ProjectApprovalRequestedEvent(c);
      case ApprovalDecided(d, n) => ok := clone.ProjectApprovalDecidedEvent(d, n);
      case WorkflowCompleted(s, f, c) => ok := clone.ProjectWorkflowCompleted(s, f, c);
    }
    next := if ok then clone else null;
  }

  /** The replay loop of readTimeline over the events alone. */
  method ReplayLoop(es: seq<Event>) returns (r: Record?)
    ensures Replay(es) == if r == null then None else Some(r.View())
  {
    r := null;
    for i := 0 to |es|
      invariant Replay(es[..i]) == if r == null then None else Some(r.View())
      invariant i > 0 ==> Accepted(es[..i])
    {
      assert es[..i + 1][..i] == es[..i];
      r := ProjectWorkflowEvent(r, es[i]);
      if r == null {
        if Accepted(es) { AcceptedPrefix(es, i + 1); }
        return;
      }
    }
    assert es[..|es|] == es;
  }
}
