/** The task acceptor as the source runs it: clone the projection with its two attempts, then update the
    clone's fields. Proved against the value-level step of TaskModel (src/artifacts/task-event-model.ts). */
module TaskProjector {
  import opened Domain
  import opened Wrappers
  import opened TaskModel

  class AttemptRecord {
    const runId: Id
    const workerId: WorkerId
    const attemptNumber: nat
    var lastModelIteration: nat
    var modelFailed: bool
    var modelTerminal: bool
    var expectedToolCallCount: nat
    var observedToolCallCount: nat
    var workerOutcome: Option<bool>
    var patch: Option<(nat, nat)>
    var validation: Option<ValidationOutcome>
    var evaluation: Option<(EvaluationOutcome, EvaluationPolicy)>
    var status: Option<RunStatus>
    var failureCode: Option<string>

    function View(): Attempt
      reads this
    {
      Attempt(runId, workerId, attemptNumber, lastModelIteration, modelFailed, modelTerminal, expectedToolCallCount,
              observedToolCallCount, workerOutcome, patch, validation, evaluation, status, failureCode)
    }

    constructor (a: Attempt)
      ensures View() == a
    {
      runId, workerId, attemptNumber := a.runId, a.workerId, a.attemptNumber;
      lastModelIteration, modelFailed, modelTerminal := a.lastModelIteration, a.modelFailed, a.modelTerminal;
      expectedToolCallCount, observedToolCallCount := a.expectedToolCallCount, a.observedToolCallCount;
      workerOutcome, patch, validation, evaluation := a.workerOutcome, a.patch, a.validation, a.evaluation;
      status, failureCode := a.status, a.failureCode;
    }

    /** ModelTurnCompleted and ToolCalled. */
    method ProjectLoopEvent(e: Event) returns (ok: bool)
      requires e.ModelTurnCompleted? || e.ToolCalled?
      modifies this
      ensures ok == ProjectAttempt(old(View()), e).Some?
      ensures View() == if ok then ProjectAttempt(old(View()), e).value else old(View())
    {
      if e.ModelTurnCompleted? {
        if || workerOutcome.Some? || modelTerminal
           || observedToolCallCount != expectedToolCallCount
           || e.iteration != lastModelIteration + 1
        {
          return false;
        }
        lastModelIteration := e.iteration;
        modelFailed := !e.succeeded;
        modelTerminal := !e.succeeded || e.toolCallCount == 0;
        expectedToolCallCount := e.toolCallCount;
        observedToolCallCount := 0;
      } else {
        if || workerOutcome.Some? || modelFailed
           || e.iteration != lastModelIteration
           || observedToolCallCount >= expectedToolCallCount
        {
          return false;
        }
        observedToolCallCount := observedToolCallCount + 1;
      }
      return true;
    }

    /** The end of the attempt. */
    method ProjectAttemptCompleted(e: Event) returns (ok: bool)
      requires e.AttemptCompleted?
      modifies this`status, this`failureCode
      ensures ok == ProjectAttempt(old(View()), e).Some?
      ensures View() == if ok then ProjectAttempt(old(View()), e).value else old(View())
    {
      if validation.None? || evaluation.None? { return false; }
      var (outcome, policy) := evaluation.value;
      var inconclusive := policy == StrictPolicy && outcome == EvaluationInconclusive;
      if e.status == Completed {
        if || workerOutcome != Some(true)
           || validation == Some(ValidationFailed)
           || outcome == EvaluationFailed
           || inconclusive
           || e.failureCode.Some? { return false; }
      } else {
        if e.failureCode.None? { return false; }
        if outcome != EvaluationFailed
           && !(e.status == Failed && inconclusive && e.failureCode == Some("EVALUATION_INCONCLUSIVE")) { return false; }
      }
      status := Some(e.status);
      failureCode := e.failureCode;
      return true;
    }

    /** The events behind the agent loop, up to the end of the attempt. */
    method ProjectEvidence(e: Event) returns (ok: bool)
      modifies this
      requires !e.ModelTurnCompleted? && !e.ToolCalled?
      ensures ok == ProjectAttempt(old(View()), e).Some?
      ensures View() == if ok then ProjectAttempt(old(View()), e).value else old(View())
    {
      ok := false;
      match e {
        case WorkerCompleted(_, succeeded, _) =>
          if || workerOutcome.Some?
             || observedToolCallCount != expectedToolCallCount
             || (modelFailed && succeeded)
             || (succeeded && (!modelTerminal || modelFailed)) { return; }
          workerOutcome := Some(succeeded);
        case PatchProduced(_, sha, _, changedFileCount) =>
          if workerOutcome.None? || validation.Some? || patch.Some? { return; }
          patch := Some((sha, changedFileCount));
        case ValidationCompleted(_, outcome, _) =>
          if workerOutcome.None? || validation.Some? { return; }
          validation := Some(outcome);
        case EvaluationCompleted(_, _, outcome, policy, _, _) =>
          if validation.None? || evaluation.Some? { return; }
          evaluation := Some((outcome, policy));
        case AttemptCompleted(_, _, _) =>
          ok := ProjectAttemptCompleted(e);
          return;
        case _ => return;
      }
      return true;
    }
  }

  function ViewOf(a: AttemptRecord?): Option<Attempt>
    reads a
  {
    if a == null then None else Some(a.View())
  }

  method CloneAttempt(a: AttemptRecord?) returns (b: AttemptRecord?)
    ensures ViewOf(b) == ViewOf(a) && (b != null ==> fresh(b))
  {
    if a == null { return null; }
    b := new AttemptRecord(a.View());
  }

  class Record {
    var status: Option<RunStatus>
    var attemptCount: nat
    var latestRunId: Option<Id>
    var route: Option<(seq<WorkerId>, nat)>
    var activeAttempt: AttemptRecord?
    var lastAttempt: AttemptRecord?
    var knownRunIds: set<Id>
    var applicationRunId: Option<Id>
    var application: ApplicationStatus

    function View(): Projection
      reads this, activeAttempt, lastAttempt
    {
      Projection(status, attemptCount, latestRunId, route, ViewOf(activeAttempt), ViewOf(lastAttempt), knownRunIds,
                 applicationRunId, application)
    }

    /** The two attempts are never the same object. */
    predicate Valid()
      reads this
    {
      activeAttempt == null || activeAttempt != lastAttempt
    }

    constructor ()
      ensures Valid() && View() == Created()
    {
      status, attemptCount, latestRunId, route := None, 0, None, None;
      activeAttempt, lastAttempt, knownRunIds := null, null, {};
      applicationRunId, application := None, NotRequested;
    }

    /** cloneProjection. */
    constructor Clone(current: Record)
      requires current.Valid()
      ensures Valid() && View() == current.View()
      ensures activeAttempt != null ==> fresh(activeAttempt)
      ensures lastAttempt != null ==> fresh(lastAttempt)
    {
      status, attemptCount, latestRunId := current.status, current.attemptCount, current.latestRunId;
      route, knownRunIds := current.route, current.knownRunIds;
      applicationRunId, application := current.applicationRunId, current.application;
      var active := CloneAttempt(current.activeAttempt);
      var last := CloneAttempt(current.lastAttempt);
      activeAttempt, lastAttempt := active, last;
    }

    method ProjectWorkerStarted(runId: Id, workerId: WorkerId, attemptNumber: nat) returns (ok: bool)
      requires Valid()
      modifies this
      ensures Valid() && lastAttempt == old(lastAttempt)
      ensures ok ==> fresh(activeAttempt)
      ensures ok == ProjectStarted(old(View()), runId, workerId, attemptNumber).Some?
      ensures View() == if ok then ProjectStarted(old(View()), runId, workerId, attemptNumber).value else old(View())
    {
      if || route.None?
         || activeAttempt != null
         || runId in knownRunIds
         || attemptNumber != attemptCount + 1
         || attemptNumber > route.value.1
         || attemptNumber > |route.value.0|
         || route.value.0[attemptNumber - 1] != workerId
         || (lastAttempt != null && !IsFallbackEligible(lastAttempt.View()))
      {
        return false;
      }
      activeAttempt := new AttemptRecord(NewAttempt(runId, workerId, attemptNumber));
      knownRunIds := knownRunIds + {runId};
      attemptCount := attemptNumber;
      latestRunId := Some(runId);
      return true;
    }

    method ProjectRunEvent(e: Event) returns (ok: bool)
      requires Valid()
      modifies this, activeAttempt
      ensures Valid()
      ensures ok == ProjectRun(old(View()), e).Some?
      ensures View() == if ok then ProjectRun(old(View()), e).value else old(View())
    {
      if activeAttempt == null || RunOf(e) != Some(activeAttempt.runId) { return false; }
      if e.ModelTurnCompleted? || e.ToolCalled? {
        ok := activeAttempt.ProjectLoopEvent(e);
      } else {
        ok := activeAttempt.ProjectEvidence(e);
      }
      if ok && e.AttemptCompleted? {
        lastAttempt := activeAttempt;
        activeAttempt := null;
      }
    }

    method ProjectTaskCompletedEvent(runId: Option<Id>, end: RunStatus) returns (ok: bool)
      requires Valid()
      modifies this
      ensures Valid()
      ensures ok == ProjectTaskCompleted(old(View()), runId, end).Some?
      ensures View() == if ok then ProjectTaskCompleted(old(View()), runId, end).value else old(View())
    {
      if route.None? || activeAttempt != null { return false; }
      if lastAttempt == null {
        if runId.Some? || end != TimedOut { return false; }
      } else if runId != Some(lastAttempt.runId) || Some(end) != lastAttempt.status {
        return false;
      }
      status := Some(end);
      latestRunId := if runId.Some? then runId else latestRunId;
      return true;
    }

    method ProjectApplicationEvent(e: Event) returns (ok: bool)
      requires Valid()
      modifies this
      ensures Valid()
      ensures ok == ProjectApplication(old(View()), e).Some?
      ensures View() == if ok then ProjectApplication(old(View()), e).value else old(View())
    {
      ok := false;
      match e {
        case PatchApplicationRequested(runId) =>
          if || status != Some(Completed)
             || lastAttempt == null
             || lastAttempt.runId != runId
             || lastAttempt.status != Some(Completed)
             || lastAttempt.patch.None?
             || application !in {NotRequested, ApplicationRejected} { return; }
          applicationRunId := Some(runId);
          application := ApplicationPending;
        case PatchApproved(runId) =>
          if applicationRunId != Some(runId) || application != ApplicationPending { return; }
          application := ApplicationApproved;
        case PatchApplied(runId, changedFileCount) =>
          if || applicationRunId != Some(runId)
             || application != ApplicationApproved
             || lastAttempt == null
             || lastAttempt.patch.None?
             || changedFileCount != lastAttempt.patch.value.1 { return; }
          application := Applied;
        case PatchApplicationRejected(runId, _) =>
          if applicationRunId != Some(runId) || application !in {ApplicationPending, ApplicationApproved} { return; }
          application := ApplicationRejected;
        case _ => return;
      }
      return true;
    }

    method ProjectRouteSelected(workers: seq<WorkerId>, maxAttempts: nat) returns (ok: bool)
      requires Valid()
      modifies this
      ensures Valid()
      ensures ok <==> old(route).None? && old(activeAttempt) == null && old(lastAttempt) == null
      ensures View() == if ok then old(View()).(route := Some((workers, maxAttempts))) else old(View())
    {
      ok := route.None? && activeAttempt == null && lastAttempt == null;
      if ok { route := Some((workers, maxAttempts)); }
    }

    /** The switch over the event's type. */
    method ProjectEvent(e: Event) returns (ok: bool)
      requires Valid() && ValidData(e) && !e.TaskCreated?
      modifies this, activeAttempt
      ensures Valid()
      ensures ok == Project(Some(old(View())), e).Some?
      ensures ok ==> Some(View()) == Project(Some(old(View())), e)
    {
      if IsPatchApplicationEvent(e) {
        ok := ProjectApplicationEvent(e);
      } else if status.Some? {
        return false;
      } else if e.RouteSelected? {
        ok := ProjectRouteSelected(e.candidateWorkerIds, e.maxAttempts);
      } else if e.WorkerStarted? {
        ok := ProjectWorkerStarted(e.runId, e.workerId, e.attemptNumber);
      } else if e.TaskCompleted? {
        ok := ProjectTaskCompletedEvent(e.lastRunId, e.status);
      } else {
        ok := ProjectRunEvent(e);
      }
    }
  }

  function ViewOfRecord(r: Record?): Option<Projection>
    reads r, if r == null then {} else {r.activeAttempt, r.lastAttempt}
  {
    if r == null then None else Some(r.View())
  }

  /** projectTaskEvent: a fresh record with the event applied, or null. Neither the record it was given
      nor that record's attempts are touched, so a refused append leaves the projection as it was. */
  method ProjectTaskEvent(current: Record?, e: Event) returns (next: Record?)
    requires current != null ==> current.Valid()
    ensures next != null ==> fresh(next) && next.Valid()
    ensures Project(ViewOfRecord(current), e) == ViewOfRecord(next)
  {
    if !ValidData(e) { return null; }
    if e.TaskCreated? {
      if current != null { return null; }
      next := new Record();
      return;
    }
    if current == null { return null; }
    var clone := new Record.Clone(current);
    var ok := clone.ProjectEvent(e);
    next := if ok then clone else null;
  }
}
