/** How the service turns a worker's report into a stage result (src/workflow/service.ts), and
    exactly when the acceptor takes the event built from it. */
module WorkflowWriter {
  import opened Domain
  import opened Wrappers
  import opened WorkflowModel
  import opened WorkflowInvariants

  /** The fields of a worker run report that stageResult reads. */
  datatype Report = Report(runId: Id, taskId: Option<Id>, status: RunStatus,
                           failureCode: Option<string>, hasPatch: bool)

  /** What a thrown stage error is: an abort, a timeout, a coded harness error, or anything else. */
  datatype StageError = AbortError | TimeoutError | HarnessError(code: string) | OtherError

  /** What one delegation came back with: a report, or the error it threw. */
  datatype Outcome = Reported(report: Report) | Threw(error: StageError)

  datatype StageResult = StageResult(report: Option<Report>, status: RunStatus, failureCode: Option<string>,
                                     candidateRunId: Option<Id>, nextStage: Option<Target>)

  function ClassifyStageError(error: StageError): RunStatus {
    match error
    case AbortError => Cancelled
    case TimeoutError => TimedOut
    case HarnessError(code) =>
      if || Contains(code, "POLICY") || Contains(code, "DENIED") || Contains(code, "CANDIDATE")
         || Contains(code, "HISTORY") || Contains(code, "ARTIFACT")
      then PolicyViolation
      else Failed
    case OtherError => Failed
  }

  function GetFailureCode(error: StageError): string {
    if error.HarnessError? then error.code else "WORKFLOW_STAGE_FAILED"
  }

  function StageStatus(outcome: Outcome, aborted: bool, expired: bool): RunStatus {
    if aborted then Cancelled
    else if expired then TimedOut
    else match outcome
      case Reported(r) => r.status
      case Threw(error) => ClassifyStageError(error)
  }

  function StageCode(outcome: Outcome, aborted: bool, expired: bool): string {
    match StageStatus(outcome, aborted, expired)
    case Cancelled => "WORKFLOW_CANCELLED"
    case TimedOut => "WORKFLOW_DEADLINE_EXCEEDED"
    case _ =>
      match outcome
      case Reported(r) => if r.failureCode.Some? then r.failureCode.value else "WORKFLOW_STAGE_FAILED"
      case Threw(error) => GetFailureCode(error)
  }

  function ReportOf(outcome: Outcome): Option<Report> {
    if outcome.Reported? then Some(outcome.report) else None
  }

  predicate RetryBranch(p: Projection, retries: nat, stage: StageName, outcome: Outcome, aborted: bool, expired: bool)
  {
    var status := StageStatus(outcome, aborted, expired);
    && stage != Repair
    && (status == Failed || status == Blocked)
    && retries < RetryLimit(p.definition, stage)
    && IsRetryable(StageCode(outcome, aborted, expired))
  }

  predicate RepairBranch(p: Projection, stage: StageName, outcome: Outcome, aborted: bool, expired: bool) {
    && outcome.Reported?
    && outcome.report.hasPatch
    && IsRepairable(StageCode(outcome, aborted, expired))
    && p.definition.repair.Some?
    && p.repairAttemptCount + (if stage == Repair then 1 else 0) < p.definition.maxRepairAttempts
  }

  /** stageResult. `retries` is what retryTransitionCount counted over the timeline's events. */
  function ComputeStageResult(p: Projection, retries: nat, stage: StageName,
                              outcome: Outcome, aborted: bool, expired: bool): StageResult
  {
    var prior := p.candidateRunId;
    var status := StageStatus(outcome, aborted, expired);
    var code := Some(StageCode(outcome, aborted, expired));
    var report := ReportOf(outcome);
    var candidate :=
      if status == Completed && stage != Plan && report.Some? && report.value.hasPatch
      then Some(report.value.runId) else prior;
    if status == Completed then
      if stage == Plan then
        StageResult(report, status, None, candidate, Some(Worker(Implement)))
      else if candidate.None? || report.None? || candidate != Some(report.value.runId) then
        StageResult(report, Failed, Some("WORKFLOW_CANDIDATE_MISSING"), None, None)
      else
        StageResult(report, status, None, candidate, Some(NextSuccessfulStage(p.definition, stage)))
    else if RetryBranch(p, retries, stage, outcome, aborted, expired) then
      StageResult(report, status, code, prior, Some(Worker(stage)))
    else if RepairBranch(p, stage, outcome, aborted, expired) then
      StageResult(report, status, code, Some(outcome.report.runId), Some(Worker(Repair)))
    else
      StageResult(report, status, code, candidate, None)
  }

  /** The StageCompleted event the service appends for a result. */
  function CompletionEvent(stage: StageName, executionId: Id, r: StageResult): Event {
    var runId := if r.report.Some? then Some(r.report.value.runId) else None;
    var taskId := if r.report.Some? then r.report.value.taskId else None;
    StageCompleted(stage, executionId, taskId, runId, r.status, r.failureCode, r.candidateRunId, r.nextStage)
  }

  /** What the service would have to check of an outcome before it can be recorded:
      - no retry on behalf of an error that left no report;
      - a report names its task;
      - a completed stage past planning delivers a patch, unless no candidate is known yet
        or the run is itself the candidate;
      - no repair for a policy violation, nor out of the planning stage;
      - the recorded failure code is 1 to 200 characters long. */
  predicate Recordable(p: Projection, retries: nat, stage: StageName, outcome: Outcome, aborted: bool, expired: bool)
  {
    var status := StageStatus(outcome, aborted, expired);
    var retrying := RetryBranch(p, retries, stage, outcome, aborted, expired);
    && (match outcome
        case Threw(_) => !retrying
        case Reported(r) =>
          && r.taskId.Some?
          && (status == Completed && stage != Plan && !r.hasPatch ==>
                p.candidateRunId == None || p.candidateRunId == Some(r.runId))
          && (!retrying && RepairBranch(p, stage, outcome, aborted, expired) && status != Completed ==>
                status != PolicyViolation && stage != Plan))
    && (status != Completed ==> 0 < |StageCode(outcome, aborted, expired)| <= 200)
  }

  /** The projection in which the stage is running, entered by the StageStarted event. */
  predicate RunningAt(p: Projection, stage: StageName, executionId: Id) {
    && StateInvariant(p)
    && p.currentStage == Some(Worker(stage))
    && p.activeExecutionId == Some(executionId)
  }

  /** The event the service appends at the end of a stage. */
  function RecordedEvent(p: Projection, retries: nat, stage: StageName, executionId: Id,
                         outcome: Outcome, aborted: bool, expired: bool): Event
  {
    CompletionEvent(stage, executionId, ComputeStageResult(p, retries, stage, outcome, aborted, expired))
  }

  lemma CompletedRefines(p: Projection, retries: nat, stage: StageName, executionId: Id,
                         outcome: Outcome, aborted: bool, expired: bool)
    requires RunningAt(p, stage, executionId)
    requires StageStatus(outcome, aborted, expired) == Completed
    ensures Project(Some(p), RecordedEvent(p, retries, stage, executionId, outcome, aborted, expired)).Some?
         == Recordable(p, retries, stage, outcome, aborted, expired)
  {
  }

  lemma RetryRefines(p: Projection, retries: nat, stage: StageName, executionId: Id,
                     outcome: Outcome, aborted: bool, expired: bool)
    requires RunningAt(p, stage, executionId) && retries == Count(p.retryTransitions, stage)
    requires RetryBranch(p, retries, stage, outcome, aborted, expired)
    ensures Project(Some(p), RecordedEvent(p, retries, stage, executionId, outcome, aborted, expired)).Some?
         == Recordable(p, retries, stage, outcome, aborted, expired)
  {
  }

  lemma RepairRefines(p: Projection, retries: nat, stage: StageName, executionId: Id,
                      outcome: Outcome, aborted: bool, expired: bool)
    requires RunningAt(p, stage, executionId)
    requires StageStatus(outcome, aborted, expired) != Completed
    requires !RetryBranch(p, retries, stage, outcome, aborted, expired)
    requires RepairBranch(p, stage, outcome, aborted, expired)
    ensures Project(Some(p), RecordedEvent(p, retries, stage, executionId, outcome, aborted, expired)).Some?
         == Recordable(p, retries, stage, outcome, aborted, expired)
  {
    var status := StageStatus(outcome, aborted, expired);
    assert status != Cancelled && status != TimedOut;
  }

  lemma EndRefines(p: Projection, retries: nat, stage: StageName, executionId: Id,
                   outcome: Outcome, aborted: bool, expired: bool)
    requires RunningAt(p, stage, executionId)
    requires StageStatus(outcome, aborted, expired) != Completed
    requires !RetryBranch(p, retries, stage, outcome, aborted, expired)
    requires !RepairBranch(p, stage, outcome, aborted, expired)
    ensures Project(Some(p), RecordedEvent(p, retries, stage, executionId, outcome, aborted, expired)).Some?
         == Recordable(p, retries, stage, outcome, aborted, expired)
  {
  }

  /** The writer refines the acceptor at a stage's end exactly on the recordable outcomes: with the
      service counting retries the way the acceptor does, the StageCompleted event is accepted if and
      only if the outcome is recordable. */
  lemma StageResultRefines(p: Projection, retries: nat, stage: StageName, executionId: Id,
                           outcome: Outcome, aborted: bool, expired: bool)
    requires RunningAt(p, stage, executionId)
    requires stage != Repair ==> retries == Count(p.retryTransitions, stage)
    ensures Project(Some(p), RecordedEvent(p, retries, stage, executionId, outcome, aborted, expired)).Some?
         == Recordable(p, retries, stage, outcome, aborted, expired)
  {
    if StageStatus(outcome, aborted, expired) == Completed {
      CompletedRefines(p, retries, stage, executionId, outcome, aborted, expired);
    } else if RetryBranch(p, retries, stage, outcome, aborted, expired) {
      RetryRefines(p, retries, stage, executionId, outcome, aborted, expired);
    } else if RepairBranch(p, stage, outcome, aborted, expired) {
      RepairRefines(p, retries, stage, executionId, outcome, aborted, expired);
    } else {
      EndRefines(p, retries, stage, executionId, outcome, aborted, expired);
    }
  }

  // ----- What a stage's end leads to -----

  /** The retryable codes are those of providers, and two of the worker's. */
  lemma RetryableCodes(code: string)
    ensures IsRetryable(code) <==>
            code == "WORKER_EMPTY_RESPONSE" || code == "WORKER_NO_CHANGES" || exists rest :: code == "PROVIDER_" + rest
  {
    if "PROVIDER_" <= code { assert code == "PROVIDER_" + code[9..]; }
  }

  lemma RepairableCodes(code: string)
    ensures IsRepairable(code) <==> code in ["VALIDATION_COMMAND_FAILED", "EVALUATION_FAILED", "EVALUATION_INCONCLUSIVE"]
  {
  }

  /** The completion events that a report could be given: it tells of a completed stage, a failed one tried
      again or repaired, or a failed one that ends the workflow. */
  function CompletedAs(p: Projection, stage: StageName, executionId: Id, r: Report, next: Target): Event {
    StageCompleted(stage, executionId, r.taskId, Some(r.runId), Completed, None,
                   if stage == Plan then p.candidateRunId else Some(r.runId), Some(next))
  }

  function FailedAs(p: Projection, stage: StageName, executionId: Id, r: Report, next: Option<Target>): Event {
    StageCompleted(stage, executionId, r.taskId, Some(r.runId), r.status,
                   Some(if r.failureCode.Some? then r.failureCode.value else "WORKFLOW_STAGE_FAILED"),
                   if next == Some(Worker(Repair)) then Some(r.runId) else p.candidateRunId, next)
  }

  predicate Takes(p: Projection, e: Event) {
    Project(Some(p), e).Some?
  }

  /** A completed stage is recorded as completed, on its way to the one stage the acceptor takes behind it,
      unless it lacks a patch that it needs. */
  lemma CompletionGoesOn(p: Projection, retries: nat, stage: StageName, executionId: Id, r: Report)
    requires RunningAt(p, stage, executionId) && r.status == Completed && r.taskId.Some?
    requires stage == Plan || r.hasPatch || p.candidateRunId == Some(r.runId)
    ensures var done := RecordedEvent(p, retries, stage, executionId, Reported(r), false, false);
            && Takes(p, done)
            && forall next :: Takes(p, CompletedAs(p, stage, executionId, r, next)) <==>
                              done == CompletedAs(p, stage, executionId, r, next)
  {
    assert p.definition.plan.Some? || stage != Plan;
  }

  /** A completed stage without the patch it needs has failed: the workflow ends. */
  lemma MissingCandidateEnds(p: Projection, retries: nat, stage: StageName, executionId: Id, r: Report)
    requires r.status == Completed && stage != Plan && !r.hasPatch && p.candidateRunId != Some(r.runId)
    ensures RecordedEvent(p, retries, stage, executionId, Reported(r), false, false)
         == StageCompleted(stage, executionId, r.taskId, Some(r.runId), Failed, Some("WORKFLOW_CANDIDATE_MISSING"), None, None)
  {
  }

  /** What a failed or blocked stage should come to: it is tried again if the acceptor takes that, else
      repaired if there is a patch to repair and the acceptor takes that, and only else ends the workflow. */
  function BestOf(p: Projection, stage: StageName, executionId: Id, r: Report): Event {
    var again := FailedAs(p, stage, executionId, r, Some(Worker(stage)));
    var repair := FailedAs(p, stage, executionId, r, Some(Worker(Repair)));
    if stage != Repair && Takes(p, again) then again
    else if r.hasPatch && Takes(p, repair) then repair
    else FailedAs(p, stage, executionId, r, None)
  }

  lemma RetriesWhenAllowed(p: Projection, retries: nat, stage: StageName, executionId: Id, r: Report)
    requires RunningAt(p, stage, executionId) && stage != Repair && retries == Count(p.retryTransitions, stage)
    requires r.status == Failed || r.status == Blocked
    ensures var again := FailedAs(p, stage, executionId, r, Some(Worker(stage)));
            var done := RecordedEvent(p, retries, stage, executionId, Reported(r), false, false);
            && (Takes(p, again) ==> done == again)
            && (Takes(p, done) && done.nextStage == Some(Worker(stage)) ==> Takes(p, again))
  {
  }

  lemma RepairsWhenAllowed(p: Projection, retries: nat, stage: StageName, executionId: Id, r: Report)
    requires RunningAt(p, stage, executionId) && (stage != Repair ==> retries == Count(p.retryTransitions, stage))
    requires (r.status == Failed || r.status == Blocked) && r.taskId.Some? && ValidCode(r.failureCode) && r.hasPatch
    requires stage == Repair || !Takes(p, FailedAs(p, stage, executionId, r, Some(Worker(stage))))
    ensures var repair := FailedAs(p, stage, executionId, r, Some(Worker(Repair)));
            var done := RecordedEvent(p, retries, stage, executionId, Reported(r), false, false);
            && (Takes(p, repair) ==> done == repair)
            && (!Takes(p, repair) && stage != Plan ==> done == FailedAs(p, stage, executionId, r, None))
            && (done == repair || done == FailedAs(p, stage, executionId, r, None))
  {
  }

  lemma EndsWithoutPatch(p: Projection, retries: nat, stage: StageName, executionId: Id, r: Report)
    requires RunningAt(p, stage, executionId) && (stage != Repair ==> retries == Count(p.retryTransitions, stage))
    requires (r.status == Failed || r.status == Blocked) && r.taskId.Some? && ValidCode(r.failureCode) && !r.hasPatch
    requires stage == Repair || !Takes(p, FailedAs(p, stage, executionId, r, Some(Worker(stage))))
    ensures RecordedEvent(p, retries, stage, executionId, Reported(r), false, false) == FailedAs(p, stage, executionId, r, None)
  {
  }

  /** So it comes to the best the acceptor takes, but for a planning stage that is sent to a repair, which
      the acceptor refuses. */
  lemma FailureGoesOn(p: Projection, retries: nat, stage: StageName, executionId: Id, r: Report)
    requires RunningAt(p, stage, executionId) && (stage != Repair ==> retries == Count(p.retryTransitions, stage))
    requires (r.status == Failed || r.status == Blocked) && r.taskId.Some? && ValidCode(r.failureCode)
    ensures var done := RecordedEvent(p, retries, stage, executionId, Reported(r), false, false);
            && (Takes(p, done) ==> done == BestOf(p, stage, executionId, r))
            && (!Takes(p, done) ==> stage == Plan && done == FailedAs(p, stage, executionId, r, Some(Worker(Repair))))
  {
    if stage != Repair { RetriesWhenAllowed(p, retries, stage, executionId, r); }
    if stage == Repair || !Takes(p, FailedAs(p, stage, executionId, r, Some(Worker(stage)))) {
      if r.hasPatch {
        RepairsWhenAllowed(p, retries, stage, executionId, r);
      } else {
        EndsWithoutPatch(p, retries, stage, executionId, r);
      }
      CanEnd(p, stage, executionId, r);
    }
  }

  /** A failure may always end the workflow. */
  lemma CanEnd(p: Projection, stage: StageName, executionId: Id, r: Report)
    requires RunningAt(p, stage, executionId)
    requires (r.status == Failed || r.status == Blocked) && r.taskId.Some? && ValidCode(r.failureCode)
    ensures Takes(p, FailedAs(p, stage, executionId, r, None))
  {
  }

  /** A thrown error leaves no run behind. Only an error that names a policy is more than a failure. */
  lemma ThrownStatus(error: StageError)
    ensures var status := StageStatus(Threw(error), false, false);
            && (status == Cancelled <==> error.AbortError?) && (status == TimedOut <==> error.TimeoutError?)
            && (status == PolicyViolation <==>
                  error.HarnessError?
                  && exists word :: word in ["POLICY", "DENIED", "CANDIDATE", "HISTORY", "ARTIFACT"] && Contains(error.code, word))
            && (status in {Cancelled, TimedOut, PolicyViolation, Failed})
  {
    if error.HarnessError? {
      var words := ["POLICY", "DENIED", "CANDIDATE", "HISTORY", "ARTIFACT"];
      assert words[0] in words && words[1] in words && words[2] in words && words[3] in words && words[4] in words;
    }
  }

  /** A cancel, and then a passed deadline, end every stage whatever it came back with. */
  lemma SignalEnds(p: Projection, retries: nat, stage: StageName, executionId: Id, outcome: Outcome,
                   aborted: bool, expired: bool)
    requires aborted || expired
    ensures var done := RecordedEvent(p, retries, stage, executionId, outcome, aborted, expired);
            && done.nextStage.None? && done.candidateRunId == p.candidateRunId
            && done.status == (if aborted then Cancelled else TimedOut)
            && done.failureCode == Some(if aborted then "WORKFLOW_CANCELLED" else "WORKFLOW_DEADLINE_EXCEEDED")
  {
  }

  /** The same over histories: after the start event of an accepted history the service, which counts
      retries in the timeline it read before that start, records exactly the recordable outcomes. */
  lemma StageResultRefinesHistory(es: seq<Event>, start: Event, outcome: Outcome, aborted: bool, expired: bool)
    requires Accepted(es) && start.StageStarted? && Accepted(es + [start])
    ensures var p := Replay(es).value;
            var retries := RetryTransitionCount(es, start.stage);
            var done := RecordedEvent(p, retries, start.stage, start.executionId, outcome, aborted, expired);
            Accepted(es + [start] + [done]) == Recordable(p, retries, start.stage, outcome, aborted, expired)
  {
    ReplaySnoc(es, start);
    AcceptedState(es);
    var p := Replay(es).value;
    StepPreserves(p, start);
    if start.stage != Repair { RetryCountersAgree(es, start.stage); }
    var q := Replay(es + [start]).value;
    var retries := RetryTransitionCount(es, start.stage);
    StageResultRefines(q, retries, start.stage, start.executionId, outcome, aborted, expired);
    StartKeepsView(p, q, retries, start.stage, outcome, aborted, expired);
    ReplaySnoc(es + [start],
               RecordedEvent(p, retries, start.stage, start.executionId, outcome, aborted, expired));
  }

  /** stageResult reads nothing that starting a stage changes. */
  lemma StartKeepsView(p: Projection, q: Projection, retries: nat, stage: StageName,
                       outcome: Outcome, aborted: bool, expired: bool)
    requires p.definition == q.definition && p.candidateRunId == q.candidateRunId
    requires p.repairAttemptCount == q.repairAttemptCount
    ensures ComputeStageResult(p, retries, stage, outcome, aborted, expired)
         == ComputeStageResult(q, retries, stage, outcome, aborted, expired)
    ensures Recordable(p, retries, stage, outcome, aborted, expired)
         == Recordable(q, retries, stage, outcome, aborted, expired)
  {
  }

  /** A definition with a review stage and one retry of its implement stage. */
  function ReviewedDefinition(): Definition {
    Definition(None, StageConfig(1), None, Some(StageConfig(0)), None, 4, 0, [])
  }

  /** A workflow about to implement. */
  function Created(): seq<Event> {
    [WorkflowCreated(ReviewedDefinition())]
  }

  /** A workflow whose run 1 has become the candidate, about to review it. */
  function Implemented(): seq<Event> {
    Created() + [StageStarted(Implement, 8, 1, None)]
    + [StageCompleted(Implement, 8, Some(7), Some(1), Completed, None, Some(1), Some(Worker(Review)))]
  }

  lemma CreatedState()
    ensures Replay(Created()) == Some(ProjectCreated(ReviewedDefinition()))
    ensures RetryTransitionCount(Created(), Implement) == 0
  {
  }

  lemma ImplementedState()
    ensures Accepted(Implemented())
    ensures var p := Replay(Implemented()).value;
            && p.definition == ReviewedDefinition() && p.candidateRunId == Some(1)
            && p.currentStage == Some(Worker(Review)) && p.activeExecutionId.None? && !p.status.Ended?
            && !p.approvalRequested && Count(p.stageAttempts, Review) == 0 && p.transitionCount == 1
  {
    CreatedState();
    var start := StageStarted(Implement, 8, 1, None);
    ReplaySnoc(Created(), start);
    ReplaySnoc(Created() + [start],
               StageCompleted(Implement, 8, Some(7), Some(1), Completed, None, Some(1), Some(Worker(Review))));
  }

  /** A history that runs a stage, and an outcome of it whose event is refused. */
  ghost predicate Refused(es: seq<Event>, start: Event, outcome: Outcome)
    requires Accepted(es) && start.StageStarted?
  {
    var retries := RetryTransitionCount(es, start.stage);
    var done := RecordedEvent(Replay(es).value, retries, start.stage, start.executionId, outcome, false, false);
    Accepted(es + [start]) && !Accepted(es + [start] + [done])
  }

  /** A review that completes without a patch while an earlier candidate exists is refused. */
  lemma PatchlessCompletionRefused()
    ensures Accepted(Implemented())
    ensures Refused(Implemented(), StageStarted(Review, 9, 1, Some(1)), Reported(Report(2, Some(7), Completed, None, false)))
  {
    ImplementedState();
    var es, start := Implemented(), StageStarted(Review, 9, 1, Some(1));
    var outcome := Reported(Report(2, Some(7), Completed, None, false));
    ReplaySnoc(es, start);
    assert !Recordable(Replay(es).value, RetryTransitionCount(es, Review), Review, outcome, false, false);
    StageResultRefinesHistory(es, start, outcome, false, false);
  }

  /** A retry granted to an error that left no report is refused, whatever its code. */
  lemma RetryWithoutReport(code: string)
    requires IsRetryable(code) && ClassifyStageError(HarnessError(code)) == Failed
    ensures Accepted(Created())
    ensures Refused(Created(), StageStarted(Implement, 9, 1, None), Threw(HarnessError(code)))
  {
    CreatedState();
    var es, start, outcome := Created(), StageStarted(Implement, 9, 1, None), Threw(HarnessError(code));
    ReplaySnoc(es, start);
    assert RetryBranch(Replay(es).value, 0, Implement, outcome, false, false);
    StageResultRefinesHistory(es, start, outcome, false, false);
  }

  /** What a provider's client raises for an error response. Inside the agent loop it ends as a report;
      an evaluator that asks a provider for its judgement lets it out of the delegation. */
  const PROVIDER_ERROR := "PROVIDER_HTTP_ERROR"

  /** Such an error leaves no report, is granted a retry, and is refused. */
  lemma ReportlessRetryRefused()
    ensures Accepted(Created())
    ensures Refused(Created(), StageStarted(Implement, 9, 1, None), Threw(HarnessError(PROVIDER_ERROR)))
  {
    NoPolicy();
    NoDenied();
    NoCandidate();
    NoHistory();
    NoArtifact();
    PlainCode(PROVIDER_ERROR);
    ProviderErrorIsRetryable();
    RetryWithoutReport(PROVIDER_ERROR);
  }

  lemma PlainCode(code: string)
    requires !Contains(code, "POLICY") && !Contains(code, "DENIED") && !Contains(code, "CANDIDATE")
    requires !Contains(code, "HISTORY") && !Contains(code, "ARTIFACT")
    ensures ClassifyStageError(HarnessError(code)) == Failed
  {
  }

  lemma ProviderErrorIsRetryable()
    ensures IsRetryable(PROVIDER_ERROR)
  {
  }

  predicate OpensAt(s: string, word: string, i: nat)
    requires 3 <= |word| && i + 3 <= |s|
  {
    s[i] == word[0] && s[i + 1] == word[1] && s[i + 2] == word[2]
  }

  /** A word is absent where no index shows its first three letters. */
  lemma {:induction false} AbsentWord(s: string, word: string)
    requires 3 <= |word| && forall i: nat :: i + 3 <= |s| ==> !OpensAt(s, word, i)
    ensures !Contains(s, word)
  {
    if |s| >= 3 { assert !OpensAt(s, word, 0); }
    if s != "" {
      forall i: nat | i + 3 <= |s[1..]| ensures !OpensAt(s[1..], word, i) { assert !OpensAt(s, word, i + 1); }
      AbsentWord(s[1..], word);
    }
  }

  lemma NoPolicy()
    ensures !Contains(PROVIDER_ERROR, "POLICY")
  {
    AbsentWord(PROVIDER_ERROR, "POLICY");
  }

  lemma NoDenied()
    ensures !Contains(PROVIDER_ERROR, "DENIED")
  {
    AbsentWord(PROVIDER_ERROR, "DENIED");
  }

  lemma NoCandidate()
    ensures !Contains(PROVIDER_ERROR, "CANDIDATE")
  {
    AbsentWord(PROVIDER_ERROR, "CANDIDATE");
  }

  lemma NoHistory()
    ensures !Contains(PROVIDER_ERROR, "HISTORY")
  {
    AbsentWord(PROVIDER_ERROR, "HISTORY");
  }

  lemma NoArtifact()
    ensures !Contains(PROVIDER_ERROR, "ARTIFACT")
  {
    AbsentWord(PROVIDER_ERROR, "ARTIFACT");
  }
}
