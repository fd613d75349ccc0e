/** The worker service as the writer of a task's journal: the agent loop, one attempt in a worktree,
    the delegation over attempts, and the patch application (src/worker/agent-loop.ts,
    src/worker/service.ts).

    Providers, tools, commands, git and the other evaluators are the environment: what they answer is
    chosen arbitrarily. Both abort signals may be raised at any await and stay raised. */
module TaskService {
  import opened Domain
  import opened Wrappers
  import opened TaskModel
  import opened TaskEvaluation
  import opened TaskAttempt
  import opened TaskPatchGate
  import opened TaskHistory

  const MAX_EVENTS_PER_TASK := 10_000
  const MAX_ATTEMPTS := 8

  datatype AppendResult = Committed | Refused | Full | Threw(error: Error)

  /** What becomes of a write to the journal. One that fails may still have published its event. */
  datatype Write = Succeeds | Fails(error: Error, published: bool)

  function AppendError(r: AppendResult): Error
    requires r != Committed
  {
    match r
    case Refused => Coded("INVALID_TASK_JOURNAL")
    case Full => Coded("TASK_EVENT_LIMIT")
    case Threw(error) => error
  }

  // ----- What the service knows of the journal while an attempt runs -----

  /** The acceptor takes the event here unless the event is malformed in itself. */
  predicate Orderly(p: Projection, e: Event) {
    ValidData(e) ==> Project(Some(p), e).Some?
  }

  predicate Running(p: Projection, run: Id) {
    && p.route.Some? && p.status.None?
    && p.activeAttempt.Some? && p.activeAttempt.value.runId == run && p.activeAttempt.value.status.None?
  }

  /** Only the running attempt has moved. */
  predicate Within(p: Projection, q: Projection, run: Id) {
    Running(q, run) && q == p.(activeAttempt := q.activeAttempt)
  }

  /** The worker has not finished, and every tool call asked for so far has been observed. */
  predicate Looping(a: Attempt) {
    && a.workerOutcome.None? && a.patch.None? && a.validation.None? && a.evaluation.None?
    && a.observedToolCallCount == a.expectedToolCallCount
  }

  /** Turn number `iteration` is the next one. */
  predicate BeforeTurn(a: Attempt, iteration: nat) {
    Looping(a) && !a.modelTerminal && !a.modelFailed && a.lastModelIteration + 1 == iteration
  }

  /** Turn number `iteration` asked for `count` tool calls, none of them observed yet. */
  predicate AfterTurn(a: Attempt, iteration: nat, count: nat) {
    && a.workerOutcome.None? && a.patch.None? && a.validation.None? && a.evaluation.None?
    && !a.modelTerminal && !a.modelFailed && a.lastModelIteration == iteration
    && a.expectedToolCallCount == count && a.observedToolCallCount == 0
  }

  predicate AfterWorker(a: Attempt, succeeded: bool) {
    a.workerOutcome == Some(succeeded) && a.validation.None? && a.evaluation.None?
  }

  predicate AfterValidation(a: Attempt, completed: bool) {
    && a.workerOutcome.Some? && a.validation.Some? && a.evaluation.None?
    && (completed ==> a.workerOutcome == Some(true) && a.validation != Some(ValidationFailed))
  }

  /** The status and code of the run agree with everything its attempt has recorded. */
  predicate Concluded(a: Attempt, status: RunStatus, code: Option<string>) {
    && a.validation.Some? && a.evaluation.Some?
    && (status == Completed <==> code.None?)
    && (status == Completed ==>
          && a.workerOutcome == Some(true) && a.validation != Some(ValidationFailed)
          && a.evaluation.value.0 != EvaluationFailed
          && a.evaluation.value != (EvaluationInconclusive, StrictPolicy))
    && (status != Completed && a.evaluation.value.0 != EvaluationFailed ==>
          && status == Failed && code == Some("EVALUATION_INCONCLUSIVE")
          && a.evaluation.value == (EvaluationInconclusive, StrictPolicy))
  }

  /** The next attempt may start. */
  predicate Startable(p: Projection, worker: WorkerId, attemptNumber: nat) {
    && p.status.None? && p.route.Some? && p.activeAttempt.None?
    && attemptNumber == p.attemptCount + 1 && attemptNumber <= p.route.value.1 <= |p.route.value.0|
    && p.route.value.0[attemptNumber - 1] == worker
    && Bounded(worker, 64) && attemptNumber <= MAX_ATTEMPTS
    && (p.lastAttempt.Some? ==> IsFallbackEligible(p.lastAttempt.value))
  }

  /** An event of the running attempt is taken whenever the attempt takes it. */
  lemma AttemptTakes(p: Projection, run: Id, e: Event)
    requires Running(p, run) && RunOf(e) == Some(run) && !e.AttemptCompleted?
    ensures ProjectAttempt(p.activeAttempt.value, e).Some? ==> Orderly(p, e)
    ensures Project(Some(p), e).Some? ==>
              var q := Project(Some(p), e).value;
              Within(p, q, run) && q.activeAttempt == ProjectAttempt(p.activeAttempt.value, e)
  {
  }

  /** An attempt whose parts agree can be completed, and becomes the last attempt. */
  lemma AttemptEnds(p: Projection, run: Id, status: RunStatus, code: Option<string>)
    requires Running(p, run) && Concluded(p.activeAttempt.value, status, code) && ValidCode(code)
    ensures var a := p.activeAttempt.value.(status := Some(status), failureCode := code);
            Project(Some(p), AttemptCompleted(run, status, code)) == Some(p.(lastAttempt := Some(a), activeAttempt := None))
  {
  }

  // ----- The agent loop -----

  /** `Unrecorded` is TASK_HISTORY_RECORDING_FAILED, with the event if the acceptor refused it. */
  datatype LoopResult = Finished | Stopped(error: Error) | Unrecorded(refused: Option<Event>)

  /** The events a run cannot record, each malformed by what the environment answered: more than 32
      tool calls in a turn, an unusable tool name, or evaluators that contradict each other. */
  ghost predicate Unrecordable(e: Event) {
    match e
    case ModelTurnCompleted(_, _, succeeded, toolCallCount) => succeeded && toolCallCount > 32
    case ToolCalled(_, toolName, _) => !Bounded(toolName, 100)
    case EvaluationCompleted(run, _, _, policy, _, _) =>
      exists results :: ValidResults(results) && !Agree(results) && e == EvaluationEvent(run, results, policy)
    case RouteSelected(_, _) => !ValidData(e)
    case _ => false
  }

  // ----- One attempt -----

  datatype AttemptExit = Reported(report: Report) | AttemptThrew(refused: Option<Event>)

  function ProducedEvent(run: Id, s: Locals): Option<Event> {
    if s.patch.bytes == 0 then None
    else Some(PatchProduced(run, s.patch.sha256, s.patch.bytes, s.changedFileCount))
  }

  /** The report tells the status of the last attempt, and no attempt is running. */
  predicate Tells(p: Projection, report: Report) {
    && p.status.None? && p.route.Some? && p.activeAttempt.None? && p.lastAttempt.Some?
    && p.lastAttempt.value.runId == report.runId
    && p.lastAttempt.value.status == Some(report.status)
    && p.lastAttempt.value.failureCode == report.failureCode
  }

  /** The attempt is over, and the report says how. */
  predicate Attempted(p: Projection, q: Projection, report: Report) {
    Tells(q, report) && q.route == p.route && q.attemptCount == p.attemptCount
  }

  /** A completed run's report, as far as its attempt's events bear it out. */
  ghost predicate Evidenced(es: seq<Event>, r: Report, ended: Option<Event>) {
    var produced := Find(es, Patch, r.runId);
    && Find(es, Start, r.runId).Some? && Find(es, Start, r.runId).value.workerId == r.workerId
    && (if r.patchSha256.None? then produced.None?
        else
          && produced.Some? && produced.value.patchSha256 == r.patchSha256.value
          && produced.value.changedFileCount == r.changedFileCount)
    && Find(es, Evaluation, r.runId) == Some(EvaluationEvent(r.runId, r.results, r.policy))
    && Find(es, End, r.runId) == ended
  }

  lemma EndFound(es: seq<Event>, e: Event)
    requires e.AttemptCompleted?
    ensures forall r: Report :: r.runId == e.runId && Evidenced(es, r, None) ==> Evidenced(es + [e], r, Some(e))
  {
    forall kind: Kind { FindSnoc(es, e, kind, e.runId); }
  }

  lemma SameTrail(before: seq<Event>, after: seq<Event>, run: Id, worker: WorkerId)
    requires Trail(before, run, worker, None, None) && SameFinds(before, after, run)
    ensures Trail(after, run, worker, None, None)
  {
  }

  /** The running attempt's history so far, as a later lookup will see it. */
  ghost predicate Trail(es: seq<Event>, run: Id, worker: WorkerId, produced: Option<Event>, evaluated: Option<Event>) {
    && Find(es, Start, run).Some? && Find(es, Start, run).value.workerId == worker
    && Find(es, Patch, run) == produced
    && Find(es, Evaluation, run) == evaluated
    && Find(es, End, run) == None
  }

  lemma TrailSnoc(es: seq<Event>, e: Event, run: Id, worker: WorkerId, produced: Option<Event>, evaluated: Option<Event>)
    requires Trail(es, run, worker, produced, evaluated) && !e.AttemptCompleted?
    requires Is(Patch, run, e) ==> produced.None?
    requires Is(Evaluation, run, e) ==> evaluated.None?
    ensures Trail(es + [e], run, worker, if Is(Patch, run, e) then Some(e) else produced,
                  if Is(Evaluation, run, e) then Some(e) else evaluated)
  {
    forall kind: Kind { FindSnoc(es, e, kind, run); }
  }

  /** No event of a run that has not started can be found. */
  lemma FreshTrail(es: seq<Event>, e: Event)
    requires e.WorkerStarted?
    requires forall i :: 0 <= i < |es| && Mentions(es[i]).Some? ==> Mentions(es[i]).value != e.runId
    ensures Trail(es + [e], e.runId, e.workerId, None, None)
  {
    forall kind: Kind
      ensures Find(es + [e], kind, e.runId) == if Is(kind, e.runId, e) then Some(e) else None
    {
      FindIsFirst(es, kind, e.runId);
      FindSnoc(es, e, kind, e.runId);
    }
  }

  // ----- The delegation and the patch application -----

  /** The events of one attempt at most: start, turns, tool calls, and the five behind the loop. */
  const EVENTS_PER_ATTEMPT := MAX_ITERATIONS + MAX_TOTAL_TOOL_CALLS + 6

  /** Creation, route, and so many attempts. */
  function EventsAfter(attempts: nat): nat {
    2 + attempts * EVENTS_PER_ATTEMPT
  }

  lemma AttemptFits(index: nat, maxAttempts: nat)
    requires index < maxAttempts <= MAX_ATTEMPTS
    ensures EventsAfter(index + 1) == EventsAfter(index) + EVENTS_PER_ATTEMPT
    ensures EventsAfter(index + 1) <= EventsAfter(maxAttempts) <= EventsAfter(MAX_ATTEMPTS) < MAX_EVENTS_PER_TASK
  {
  }

  lemma EventsGrow(index: nat, maxAttempts: nat)
    requires index <= maxAttempts
    ensures EventsAfter(index) <= EventsAfter(maxAttempts)
  {
  }

  datatype DelegateExit = Returned(report: Report) | NoAttempt | DelegateThrew(refused: Option<Event>)

  datatype ApplyExit = Patched(recorded: bool) | NotPatched

  /** Between two attempts, with `index` of them done. */
  predicate Between(p: Projection, candidates: seq<WorkerId>, maxAttempts: nat, index: nat) {
    p.status.None? && p.route == Some((candidates, maxAttempts)) && p.activeAttempt.None? && p.attemptCount == index
  }

  predicate ShouldFallback(report: Report, fallbackEnabled: bool, index: nat, maxAttempts: nat) {
    fallbackEnabled && index + 1 < maxAttempts && report.status == Failed && IsFallbackCode(report.failureCode)
  }

  /** A history without a completion gets its first. */
  lemma FirstCompletion(es: seq<Event>, e: Event)
    requires Accepted(es) && Replay(es).value.status.None? && e.TaskCompleted?
    ensures FindCompleted(es + [e]) == Some(e)
  {
    FoundCompletion(es);
    CompletionEnds(es);
    FindCompletedSnoc(es, e);
  }

  /** The report's patch is the one the journal may record as applied. */
  predicate Patchable(p: Projection, report: Report) {
    && p.lastAttempt.Some? && p.lastAttempt.value.patch.Some?
    && p.lastAttempt.value.patch.value.1 == report.changedFileCount
    && ValidData(PatchApplied(report.runId, report.changedFileCount))
  }

  /** The history ends with the task's completion, and a completed run's report is linked to it exactly
      when its patch was kept. */
  predicate Delivered(es: seq<Event>, report: Report) {
    && es != [] && es[|es| - 1] == TaskCompleted(Some(report.runId), report.status)
    && (report.status == Completed ==>
          (Linked(es, report) <==> (report.changedFileCount == 0 || report.patchSha256.Some?)))
  }

  lemma DeliveredByCompletion(es: seq<Event>, report: Report)
    requires Accepted(es) && Tells(Replay(es).value, report)
    requires report.status == Completed ==>
               Evidenced(es, report, Some(AttemptCompleted(report.runId, report.status, report.failureCode)))
    ensures Delivered(es + [TaskCompleted(Some(report.runId), report.status)], report)
  {
    var e := TaskCompleted(Some(report.runId), report.status);
    FindsSnoc(es, e, report.runId);
    FirstCompletion(es, e);
  }

  /** What follows a recorded request, as far as it is recorded. */
  predicate Ending(report: Report, added: seq<Event>) {
    && |added| <= 2
    && (|added| > 0 ==> added[0] == PatchApproved(report.runId))
    && (|added| > 1 ==> added[1] == PatchApplied(report.runId, report.changedFileCount)
                        || (added[1].PatchApplicationRejected? && added[1].runId == report.runId))
  }

  /** What one call of applyRun may add to the history. */
  predicate Lifecycle(report: Report, added: seq<Event>) {
    added == [] ||
    (&& added[0] == PatchApplicationRequested(report.runId)
     && (|| Ending(report, added[1..])
         || (|added| == 2 && added[1].PatchApplicationRejected? && added[1].runId == report.runId)))
  }

  predicate HasPatch(report: Report) {
    report.status == Completed && report.patchSha256.Some?
  }

  /** What one look at the repository or the stored patch answers; it may also throw. */
  datatype Answer = Holds | FailsToHold | Throws(error: Error)

  /** The answers applyReport meets, each at its time. */
  datatype Repository = Repository(
    sameRepository: bool, clean: Answer, atBase: Answer, patchKept: Answer, digestMatches: bool, applies: Answer,
    stillClean: Answer, stillAtBase: Answer)

  /** Everything applyRun meets: whether the task's history can be read, the repository, git's answer to
      the patch, and the writes to the journal. */
  datatype ApplyEnvironment = ApplyEnvironment(
    readable: bool, repository: Repository, git: Option<Error>,
    request: Write, approval: Write, record: Write, rejection: Write)

  datatype Check =
    | RepositoryMatches | RunCompleted | RunHasPatch | TreeClean | HeadAtBase | PatchKept | DigestMatches
    | PatchApplies | TreeStillClean | HeadStillAtBase

  function CodeOf(c: Check): Code {
    match c
    case RepositoryMatches => "RUN_REPOSITORY_MISMATCH"
    case RunCompleted => "RUN_NOT_APPLICABLE"
    case RunHasPatch => "RUN_HAS_NO_PATCH"
    case PatchKept => "EMPTY_PATCH"
    case DigestMatches => "PATCH_INTEGRITY_FAILED"
    case _ => WorktreeCodeOf(c)
  }

  function WorktreeCodeOf(c: Check): Code {
    match c
    case TreeClean => "DIRTY_WORKING_TREE"
    case HeadAtBase => "BASE_COMMIT_CHANGED"
    case TreeStillClean => "WORKING_TREE_CHANGED_DURING_APPLY"
    case HeadStillAtBase => "BASE_COMMIT_CHANGED_DURING_APPLY"
    case _ => "PATCH_CHECK_FAILED"
  }

  function If(holds: bool): Answer {
    if holds then Holds else FailsToHold
  }

  function AnswerTo(c: Check, report: Report, r: Repository): Answer {
    match c
    case RepositoryMatches => If(r.sameRepository)
    case RunCompleted => If(report.status == Completed)
    case RunHasPatch => If(report.patchSha256.Some? && report.changedFileCount > 0)
    case TreeClean => r.clean
    case HeadAtBase => r.atBase
    case PatchKept => r.patchKept
    case DigestMatches => If(r.digestMatches)
    case PatchApplies => r.applies
    case TreeStillClean => r.stillClean
    case HeadStillAtBase => r.stillAtBase
  }

  /** The order the checks are made in. */
  const CHECKS := [RepositoryMatches, RunCompleted, RunHasPatch, TreeClean, HeadAtBase, PatchKept, DigestMatches,
                   PatchApplies, TreeStillClean, HeadStillAtBase]

  /** What stops the application: the first check that does not hold. */
  function Obstacle(report: Report, r: Repository, checks: seq<Check>): (error: Option<Error>)
    ensures error.None? <==> forall i :: 0 <= i < |checks| ==> AnswerTo(checks[i], report, r).Holds?
  {
    if checks == [] then None
    else
      match AnswerTo(checks[0], report, r)
      case FailsToHold => Some(Coded(CodeOf(checks[0])))
      case Throws(error) => Some(error)
      case Holds =>
        var rest := Obstacle(report, r, checks[1..]);
        assert forall i :: 0 <= i < |checks[1..]| ==> checks[1..][i] == checks[i + 1];
        rest
  }

  lemma EveryCheckIsMade(c: Check)
    ensures exists i :: 0 <= i < |CHECKS| && CHECKS[i] == c
  {
    match c {
      case RepositoryMatches => assert CHECKS[0] == c;
      case RunCompleted => assert CHECKS[1] == c;
      case RunHasPatch => assert CHECKS[2] == c;
      case TreeClean => assert CHECKS[3] == c;
      case HeadAtBase => assert CHECKS[4] == c;
      case PatchKept => assert CHECKS[5] == c;
      case DigestMatches => assert CHECKS[6] == c;
      case PatchApplies => assert CHECKS[7] == c;
      case TreeStillClean => assert CHECKS[8] == c;
      case HeadStillAtBase => assert CHECKS[9] == c;
    }
  }

  lemma AllHold(report: Report, r: Repository)
    ensures (forall c: Check :: AnswerTo(c, report, r).Holds?) <==>
            && HasPatch(report) && report.changedFileCount > 0
            && r == Repository(true, Holds, Holds, Holds, true, Holds, Holds, Holds)
  {
    if forall c: Check :: AnswerTo(c, report, r).Holds? {
      assert AnswerTo(RepositoryMatches, report, r).Holds? && AnswerTo(DigestMatches, report, r).Holds?;
      assert AnswerTo(RunCompleted, report, r).Holds? && AnswerTo(RunHasPatch, report, r).Holds?;
      assert AnswerTo(TreeClean, report, r).Holds? && AnswerTo(HeadAtBase, report, r).Holds?;
      assert AnswerTo(PatchKept, report, r).Holds? && AnswerTo(PatchApplies, report, r).Holds?;
      assert AnswerTo(TreeStillClean, report, r).Holds? && AnswerTo(HeadStillAtBase, report, r).Holds?;
    }
  }

  /** Nothing stops it exactly when the run completed with a patch and the repository and the stored patch
      answer every question as they should. */
  lemma NoObstacle(report: Report, r: Repository)
    ensures Obstacle(report, r, CHECKS).None? <==>
            && HasPatch(report) && report.changedFileCount > 0
            && r == Repository(true, Holds, Holds, Holds, true, Holds, Holds, Holds)
  {
    AllHold(report, r);
    if Obstacle(report, r, CHECKS).None? {
      forall c: Check ensures AnswerTo(c, report, r).Holds? { EveryCheckIsMade(c); }
    }
  }

  /** A check that fails hides those behind it, and none before it. */
  lemma {:induction false} ObstacleIsFirst(report: Report, r: Repository, checks: seq<Check>, k: nat)
    requires k < |checks| && AnswerTo(checks[k], report, r).FailsToHold?
    requires forall i :: 0 <= i < k ==> AnswerTo(checks[i], report, r).Holds?
    ensures Obstacle(report, r, checks) == Some(Coded(CodeOf(checks[k])))
  {
    if k > 0 { ObstacleIsFirst(report, r, checks[1..], k - 1); }
  }

  /** The patch reaches the repository. */
  predicate Fit(es: seq<Event>, report: Report, env: ApplyEnvironment) {
    && env.readable && Linked(es, report)
    && Obstacle(report, env.repository, CHECKS).None? && env.git.None?
  }

  predicate Requested(p: Projection, report: Report) {
    p.application == ApplicationPending && p.applicationRunId == Some(report.runId) && Patchable(p, report)
  }

  predicate IsApproved(p: Projection, report: Report) {
    p.application == ApplicationApproved && p.applicationRunId == Some(report.runId) && Patchable(p, report)
  }

  lemma Concatenates<T>(a: seq<T>, b: seq<T>, c: seq<T>)
    ensures a + b + c == a + (b + c)
  {
  }

  lemma ApplicationRecorded(report: Report, before: seq<Event>, added: seq<Event>, more: seq<Event>)
    requires added == [] || added == [PatchApplicationRequested(report.runId)]
    requires added == [] ==> more == []
    requires Ending(report, more)
             || (|more| == 1 && more[0].PatchApplicationRejected? && more[0].runId == report.runId)
    ensures Lifecycle(report, added + more) && before + added + more == before + (added + more)
    ensures added == [] ==> added + more == []
    ensures |more| == 2 && more[1].PatchApplied? ==> |added + more| == 3 && (added + more)[2].PatchApplied?
    ensures (forall i :: 0 <= i < |more| ==> !more[i].PatchApplied?) ==>
              forall i :: 0 <= i < |added + more| ==> !(added + more)[i].PatchApplied?
  {
    if added != [] { assert (added + more)[1..] == more; }
  }

  /** The request for a linked patch is accepted unless an application is open or done, and makes the
      patch one that may be approved and applied. */
  lemma RequestOpens(es: seq<Event>, report: Report)
    requires Accepted(es) && Linked(es, report) && report.status == Completed && report.patchSha256.Some?
    ensures var p, e := Replay(es).value, PatchApplicationRequested(report.runId);
            && (Project(Some(p), e).Some? <==> p.application in {NotRequested, ApplicationRejected})
            && (Project(Some(p), e).Some? ==>
                  Requested(Project(Some(p), e).value, report))
  {
    LinkedIsApplicable(es, report);
    LinkedIsRecordable(es, report);
  }

  /** An accepted history whose runs all have smaller numbers than this. */
  ghost predicate RunsBelow(es: seq<Event>, nextId: nat) {
    && Accepted(es)
    && (forall id :: id in Replay(es).value.knownRunIds ==> id < nextId)
    && (forall i :: 0 <= i < |es| && Mentions(es[i]).Some? ==> Mentions(es[i]).value < nextId)
  }

  lemma RunsBelowSnoc(es: seq<Event>, e: Event, nextId: nat)
    requires RunsBelow(es, nextId) && Project(Replay(es), e).Some? && (Mentions(e).Some? ==> Mentions(e).value < nextId)
    ensures RunsBelow(es + [e], nextId) && Replay(es + [e]) == Project(Replay(es), e)
  {
    ReplaySnoc(es, e);
  }

  /** The start of the next attempt, with a run never seen, is accepted. */
  lemma StartIsTaken(p: Projection, run: Id, worker: WorkerId, attemptNumber: nat)
    requires Startable(p, worker, attemptNumber) && run !in p.knownRunIds
    ensures Project(Some(p), WorkerStarted(run, worker, attemptNumber))
         == Some(p.(activeAttempt := Some(NewAttempt(run, worker, attemptNumber)),
                    knownRunIds := p.knownRunIds + {run}, attemptCount := attemptNumber, latestRunId := Some(run)))
  {
  }

  /** What one turn makes of the attempt. */
  lemma TurnMoves(a: Attempt, run: Id, iteration: nat, succeeded: bool, count: nat)
    requires BeforeTurn(a, iteration) && (!succeeded ==> count == 0)
    ensures var b := ProjectAttempt(a, ModelTurnCompleted(run, iteration, succeeded, count));
            && b.Some?
            && (succeeded ==> b.value.modelFailed == false && (count == 0 <==> b.value.modelTerminal))
            && (count == 0 ==> Looping(b.value))
            && (count > 0 ==> AfterTurn(b.value, iteration, count))
  {
  }

  class Service {
    var events: seq<Event>
    /** The caller's signal, and the timer of the attempt. */
    var aborted: bool
    var timedOut: bool
    /** The task's deadline has passed. */
    var overdue: bool
    /** A write has failed. */
    ghost var failed: bool
    var nextId: nat

    ghost predicate Valid()
      reads this`events, this`nextId
    {
      RunsBelow(events, nextId)
    }

    ghost function State(): Projection
      reads this`events, this`nextId
      requires Valid()
    {
      Replay(events).value
    }

    /** No signal is up, and no write has failed. */
    ghost predicate Quiet()
      reads this`aborted, this`timedOut, this`failed
    {
      !aborted && !timedOut && !failed
    }

    /** Signals stay up, a passed deadline stays passed, and a failed write stays failed. */
    twostate predicate Onwards()
      reads this`aborted, this`timedOut, this`overdue, this`failed
    {
      Since() && (old(timedOut) ==> timedOut)
    }

    /** The same, over several attempts and their timers. */
    twostate predicate Since()
      reads this`aborted, this`overdue, this`failed
    {
      (old(aborted) ==> aborted) && (old(overdue) ==> overdue) && (old(failed) ==> failed)
    }

    /** TaskJournal.create. */
    constructor ()
      ensures Valid() && events == [TaskCreated] && Quiet() && !overdue
    {
      events, aborted, timedOut, overdue, failed, nextId := [TaskCreated], false, false, false, false, 0;
    }

    /** The environment moves on, and raised signals stay raised. */
    method Pass()
      modifies this`aborted, this`timedOut, this`overdue
      ensures Onwards()
    {
      if * { aborted := true; }
      if * { timedOut := true; }
      if * { overdue := true; }
    }

    /** TaskJournal.append, for one outcome of its write. */
    method AppendWith(e: Event, write: Write) returns (r: AppendResult)
      requires Valid() && (Mentions(e).Some? ==> Mentions(e).value < nextId)
      modifies this`events
      ensures Valid()
      ensures r == Full <==> |old(events)| >= MAX_EVENTS_PER_TASK
      ensures r == Refused <==> |old(events)| < MAX_EVENTS_PER_TASK && Project(Some(old(State())), e).None?
      ensures r == Committed <==>
              |old(events)| < MAX_EVENTS_PER_TASK && Project(Some(old(State())), e).Some? && write.Succeeds?
      ensures events ==
              if r == Committed || (r.Threw? && write.published) then old(events) + [e] else old(events)
      ensures r.Threw? ==> write == Fails(r.error, write.published)
      ensures events != old(events) ==> Project(Some(old(State())), e) == Some(State())
    {
      if |events| >= MAX_EVENTS_PER_TASK { return Full; }
      if Project(Replay(events), e).None? { return Refused; }
      RunsBelowSnoc(events, e, nextId);
      if write.Fails? {
        if write.published { events := events + [e]; }
        return Threw(write.error);
      }
      events := events + [e];
      return Committed;
    }

    /** TaskJournal.append, for any. */
    method Append(e: Event) returns (r: AppendResult)
      requires Valid() && (Mentions(e).Some? ==> Mentions(e).value < nextId)
      modifies this`events, this`failed
      ensures Valid() && (old(failed) ==> failed) && (r.Threw? ==> failed)
      ensures r == Full <==> |old(events)| >= MAX_EVENTS_PER_TASK
      ensures r == Refused <==> |old(events)| < MAX_EVENTS_PER_TASK && Project(Some(old(State())), e).None?
      ensures r == Committed ==> events == old(events) + [e]
      ensures events == old(events) || (r != Refused && r != Full && events == old(events) + [e])
      ensures events != old(events) ==> Project(Some(old(State())), e) == Some(State())
    {
      var write: Write := *;
      r := AppendWith(e, write);
      if r.Threw? { failed := true; }
    }

    /** append with an optional publication signal, and the check of that signal behind it. */
    method Publish(e: Event, signalled: bool) returns (r: AppendResult)
      requires Valid() && Orderly(State(), e) && (Mentions(e).Some? ==> Mentions(e).value < nextId)
      modifies this`events, this`failed, this`aborted, this`timedOut, this`overdue
      ensures Valid()
      ensures Onwards()
      ensures r == Full ==> |old(events)| >= MAX_EVENTS_PER_TASK
      ensures r == Refused ==> !ValidData(e)
      ensures r.Threw? ==> failed || (signalled && (aborted || timedOut))
      ensures r == Committed ==> events == old(events) + [e] && (signalled ==> !aborted && !timedOut)
      ensures events == old(events) || events == old(events) + [e]
      ensures events != old(events) ==> Project(Some(old(State())), e) == Some(State())
    {
      Pass();
      if signalled && (aborted || timedOut) { return Threw(if aborted then AbortError else TimeoutError); }
      r := Append(e);
      if r == Committed && signalled {
        Pass();
        if aborted || timedOut { return Threw(if aborted then AbortError else TimeoutError); }
      }
    }

    /** The running attempt. */
    ghost function Current(): Attempt
      reads this`events, this`nextId
      requires Valid() && State().activeAttempt.Some?
    {
      State().activeAttempt.value
    }

    /** One event of the running attempt. */
    method Observe(run: Id, e: Event) returns (r: AppendResult)
      requires Valid() && Running(State(), run) && run < nextId
      requires RunOf(e) == Some(run) && !e.AttemptCompleted? && ProjectAttempt(Current(), e).Some?
      requires |events| < MAX_EVENTS_PER_TASK
      modifies this`events, this`failed
      ensures Valid() && r != Full && (old(failed) ==> failed) && (r.Threw? ==> failed)
      ensures r == Refused <==> !ValidData(e)
      ensures r == Committed ==> events == old(events) + [e]
      ensures events == old(events) || (r != Refused && events == old(events) + [e])
      ensures Within(old(State()), State(), run)
      ensures events != old(events) ==> Some(Current()) == ProjectAttempt(old(Current()), e)
    {
      AttemptTakes(State(), run, e);
      r := Append(e);
    }

    /** The tool calls of one turn, one after the other. */
    method CallTools(run: Id, iteration: nat, calls: seq<string>) returns (stop: Option<LoopResult>)
      requires Valid() && Running(State(), run) && run < nextId && 1 <= iteration <= MAX_ITERATIONS
      requires AfterTurn(Current(), iteration, |calls|)
      requires |events| + |calls| <= MAX_EVENTS_PER_TASK
      modifies this`events, this`failed, this`aborted, this`timedOut, this`overdue
      ensures Valid() && |events| <= |old(events)| + |calls|
      ensures Onwards()
      ensures stop.Some? ==> stop.value.Unrecorded? && (stop.value.refused.None? ==> failed)
      ensures stop.Some? && stop.value.refused.Some? ==> Unrecordable(stop.value.refused.value)
      ensures stop.None? ==> Within(old(State()), State(), run) && SameFinds(old(events), events, run)
      ensures stop.None? ==> BeforeTurn(Current(), iteration + 1)
    {
      for k := 0 to |calls|
        invariant Valid() && |events| == |old(events)| + k
        invariant Onwards()
        invariant Within(old(State()), State(), run) && SameFinds(old(events), events, run)
        invariant Current() == old(Current()).(observedToolCallCount := k)
      {
        Pass();
        var e := ToolCalled(run, calls[k], iteration);
        ghost var before := events;
        var r := Observe(run, e);
        if r != Committed { return Some(Unrecorded(if r == Refused then Some(e) else None)); }
        FindsSnoc(before, e, run);
      }
      return None;
    }

    /** The observation of one turn. */
    method RecordTurn(run: Id, iteration: nat, succeeded: bool, count: nat) returns (stop: Option<LoopResult>)
      requires Valid() && Running(State(), run) && BeforeTurn(Current(), iteration) && run < nextId
      requires 1 <= iteration <= MAX_ITERATIONS && |events| < MAX_EVENTS_PER_TASK && (!succeeded ==> count == 0)
      modifies this`events, this`failed
      ensures Valid() && |events| <= |old(events)| + 1
      ensures old(failed) ==> failed
      ensures stop.Some? ==> stop.value.Unrecorded? && (stop.value.refused.None? ==> failed)
      ensures stop.Some? && stop.value.refused.Some? ==> Unrecordable(stop.value.refused.value)
      ensures stop.None? ==>
                && Within(old(State()), State(), run) && SameFinds(old(events), events, run)
                && (succeeded ==> !Current().modelFailed && (count == 0 <==> Current().modelTerminal))
                && (count == 0 ==> Looping(Current())) && (count > 0 ==> AfterTurn(Current(), iteration, count))
    {
      var e := ModelTurnCompleted(run, iteration, succeeded, count);
      TurnMoves(Current(), run, iteration, succeeded, count);
      var r := Observe(run, e);
      if r != Committed { return Some(Unrecorded(if r == Refused then Some(e) else None)); }
      FindsSnoc(old(events), e, run);
      return None;
    }

    /** One turn of the agent loop, with its tool calls. */
    method TakeTurn(run: Id, iteration: nat, totalToolCalls: nat, limits: Limits, turn: Turn)
      returns (r: Option<LoopResult>, count: nat)
      requires Valid() && Running(State(), run) && BeforeTurn(Current(), iteration) && run < nextId
      requires 1 <= iteration <= MAX_ITERATIONS && totalToolCalls <= limits.maxTotalToolCalls
      requires |events| + 1 + limits.maxTotalToolCalls - totalToolCalls <= MAX_EVENTS_PER_TASK
      modifies this`events, this`failed, this`aborted, this`timedOut, this`overdue
      ensures Valid() && |events| <= |old(events)| + 1 + count && totalToolCalls + count <= limits.maxTotalToolCalls
      ensures Onwards()
      ensures r.Some? && r.value.Unrecorded? ==> if r.value.refused.Some? then Unrecordable(r.value.refused.value) else failed
      ensures r.None? || !r.value.Unrecorded? ==>
                && Within(old(State()), State(), run) && SameFinds(old(events), events, run)
                && Looping(Current())
      ensures r.None? ==>
                && BeforeTurn(Current(), iteration + 1) && TurnError(turn, totalToolCalls, limits).None?
                && count == |Calls(turn)| > 0
      ensures r.Some? && r.value.Finished? ==>
                && Current().modelTerminal && !Current().modelFailed
                && TurnError(turn, totalToolCalls, limits).None? && |Calls(turn)| == 0
      ensures r.Some? && r.value.Stopped? ==> TurnError(turn, totalToolCalls, limits) == Some(r.value.error)
    {
      Pass();
      var error := TurnError(turn, totalToolCalls, limits);
      var calls := Calls(turn);
      count := if error.None? then |calls| else 0;
      r := RecordTurn(run, iteration, error.None?, count);
      if r.Some? { return; }
      if error.Some? { return Some(Stopped(error.value)), count; }
      if |calls| == 0 { return Some(Finished), count; }
      r := CallTools(run, iteration, calls);
    }

    /** runAgentLoop: every turn and every tool call is observed once and in order, and a stop of any
        kind leaves the attempt where its worker may be completed. */
    method RunAgentLoop(run: Id, maxIterations: nat, limits: Limits, world: World) returns (r: LoopResult)
      requires Valid() && Running(State(), run) && BeforeTurn(Current(), 1) && run < nextId
      requires maxIterations <= MAX_ITERATIONS
      requires |events| + maxIterations + limits.maxTotalToolCalls <= MAX_EVENTS_PER_TASK
      modifies this`events, this`failed, this`aborted, this`timedOut, this`overdue
      ensures Valid() && |events| <= |old(events)| + maxIterations + limits.maxTotalToolCalls
      ensures Onwards()
      ensures r.Unrecorded? ==> if r.refused.Some? then Unrecordable(r.refused.value) else failed
      ensures !r.Unrecorded? ==>
                && Within(old(State()), State(), run) && SameFinds(old(events), events, run)
                && Looping(Current())
      ensures r.Finished? ==>
                Current().modelTerminal && !Current().modelFailed && LoopError(world, maxIterations, limits, 1, 0).None?
      ensures r.Stopped? ==> LoopError(world, maxIterations, limits, 1, 0) == Some(r.error)
    {
      var totalToolCalls: nat := 0;
      for iteration := 1 to maxIterations + 1
        invariant Valid() && totalToolCalls <= limits.maxTotalToolCalls
        invariant |events| <= |old(events)| + iteration - 1 + totalToolCalls
        invariant Onwards()
        invariant Within(old(State()), State(), run) && SameFinds(old(events), events, run)
        invariant BeforeTurn(Current(), iteration)
        invariant LoopError(world, maxIterations, limits, 1, 0) == LoopError(world, maxIterations, limits, iteration, totalToolCalls)
      {
        if world.contextExceeded(iteration) { return Stopped(Coded("WORKER_CONTEXT_LIMIT")); }
        var ended, count := TakeTurn(run, iteration, totalToolCalls, limits, world.turns(iteration));
        if ended.Some? { return ended.value; }
        totalToolCalls := totalToolCalls + count;
      }
      return Stopped(Coded("WORKER_ITERATION_LIMIT"));
    }

    /** WorkerStarted, for the route's next worker and a fresh run. */
    method StartAttempt(worker: WorkerId, attemptNumber: nat) returns (r: AppendResult, run: Id)
      requires Valid() && Startable(State(), worker, attemptNumber) && |events| < MAX_EVENTS_PER_TASK
      modifies this`events, this`failed, this`nextId, this`timedOut
      ensures Valid() && |events| <= |old(events)| + 1 && r != Refused && r != Full && run < nextId
      ensures (old(failed) ==> failed) && (r != Committed ==> failed)
      ensures r == Committed ==>
                && events == old(events) + [WorkerStarted(run, worker, attemptNumber)]
                && State() == old(State()).(activeAttempt := Some(NewAttempt(run, worker, attemptNumber)),
                                            knownRunIds := old(State()).knownRunIds + {run},
                                            attemptCount := attemptNumber, latestRunId := Some(run))
                && Trail(events, run, worker, None, None)
    {
      run := nextId;
      nextId, timedOut := nextId + 1, false;
      var e := WorkerStarted(run, worker, attemptNumber);
      FreshTrail(events, e);
      StartIsTaken(State(), run, worker, attemptNumber);
      r := Append(e);
    }

    method CompleteWorker(run: Id, s: Locals, ghost worker: WorkerId) returns (r: AppendResult)
      requires Valid() && Running(State(), run) && run < nextId && |events| < MAX_EVENTS_PER_TASK
      requires Looping(Current()) && Coherent(s) && Trail(events, run, worker, None, None)
      requires s.status == Completed ==> Current().modelTerminal && !Current().modelFailed
      modifies this`events, this`failed
      ensures Valid() && |events| <= |old(events)| + 1 && r != Refused && r != Full
      ensures (old(failed) ==> failed) && (r != Committed ==> failed)
      ensures r == Committed ==>
                && Within(old(State()), State(), run) && Trail(events, run, worker, None, None)
                && AfterWorker(Current(), s.status == Completed) && Current().patch.None?
    {
      var e := WorkerCompleted(run, s.status == Completed, s.failureCode);
      TrailSnoc(events, e, run, worker, None, None);
      r := Observe(run, e);
    }

    /** PatchProduced, if there is a patch. */
    method RecordPatch(run: Id, s: Locals, ghost worker: WorkerId) returns (error: Option<Error>)
      requires Valid() && Running(State(), run) && run < nextId && |events| < MAX_EVENTS_PER_TASK
      requires Current().workerOutcome.Some? && Current().validation.None? && Current().evaluation.None?
      requires Current().patch.None? && Trail(events, run, worker, None, None)
      modifies this`events, this`failed
      ensures Valid() && |events| <= |old(events)| + 1
      ensures Within(old(State()), State(), run) && AfterWorker(Current(), old(Current()).workerOutcome.value)
      ensures old(failed) ==> failed
      ensures error.None? ==> Trail(events, run, worker, ProducedEvent(run, s), None)
      ensures !failed ==>
                error == if s.patch.bytes > 0 && !(1 <= s.changedFileCount <= 10_000) then Some(Coded("INVALID_TASK_JOURNAL")) else None
      ensures s.patch.bytes > 0 && !(1 <= s.changedFileCount <= 10_000) ==> error.Some?
    {
      if s.patch.bytes == 0 { return None; }
      var e := ProducedEvent(run, s).value;
      TrailSnoc(events, e, run, worker, None, None);
      var r := Observe(run, e);
      return if r == Committed then None else Some(AppendError(r));
    }

    /** The candidate's collection. Whatever it throws, an append included, ends as a status, and so does
        every violation of the policy. */
    method CollectPatch(run: Id, s: Locals, world: World, ghost worker: WorkerId) returns (t: Locals)
      requires Valid() && Running(State(), run) && run < nextId && |events| < MAX_EVENTS_PER_TASK
      requires AfterWorker(Current(), s.status == Completed) && Current().patch.None?
      requires Coherent(s) && s.changedFileCount == 0 && s.patch == NO_PATCH
      requires Trail(events, run, worker, None, None)
      modifies this`events, this`failed, this`aborted, this`timedOut, this`overdue
      ensures Valid() && |events| <= |old(events)| + 1
      ensures Onwards()
      ensures Within(old(State()), State(), run) && AfterWorker(Current(), s.status == Completed)
      ensures Coherent(t)
      ensures t.status == Completed ==>
                && s.status == Completed && !world.refusedTool && world.collected.Ok? && !world.collected.value.violations
                && t == Unstopped(world.collected.value) && Trail(events, run, worker, ProducedEvent(run, t), None)
      ensures Quiet() ==> t.failureCode == CollectionCode(world, s.failureCode)
      ensures Quiet() && CollectsCleanly(world) ==> t.status == s.status
      ensures Quiet() && (world.refusedTool || (world.collected.Ok? && world.collected.value.violations))
              && world.collected != Err(TimeoutError) && s.status != Cancelled && s.status != TimedOut ==>
                t.status == PolicyViolation
    {
      t := s;
      Pass();
      var violated, error: Option<Error> := world.refusedTool, None;
      match world.collected {
        case Err(thrown) => error := Some(thrown);
        case Ok(c) =>
          t := s.(changedFileCount := c.changedFileCount, patch := if c.violations then NO_PATCH else c.patch);
          violated := violated || c.violations;
          error := RecordPatch(run, t, worker);
      }
      t := AfterCollection(t, error, violated, aborted, timedOut);
    }

    /** The required commands, one after the other, until one throws. */
    method RunEach(required: nat, world: World) returns (results: seq<CommandResult>, thrown: Option<Error>)
      modifies this`aborted, this`timedOut, this`overdue
      ensures Onwards()
      ensures |results| <= required && forall k :: 0 <= k < |results| ==> world.commands(k) == Ran(results[k])
      ensures thrown == CommandError(world, required) && (thrown.None? ==> |results| == required)
    {
      results := [];
      while |results| < required
        invariant Onwards() && |results| <= required
        invariant forall k :: 0 <= k < |results| ==> world.commands(k) == Ran(results[k])
        invariant CommandError(world, |results|).None?
      {
        Pass();
        var answer := world.commands(|results|);
        if answer.CommandThrew? {
          ThrowsFirst(world, |results|, required);
          return results, Some(answer.error);
        }
        results := results + [answer.result];
      }
      return results, None;
    }

    /** The required commands, and what a thrown error or a signal makes of them. `preserved` keeps the
        worktree from the integrity check. */
    method RunRequired(required: nat, s: Locals, world: World)
      returns (t: Locals, results: seq<CommandResult>, preserved: bool)
      requires s.status == Completed && s.failureCode.None?
      modifies this`aborted, this`timedOut, this`overdue
      ensures Onwards()
      ensures |results| <= required && forall k :: 0 <= k < |results| ==> world.commands(k) == Ran(results[k])
      ensures t.status == Completed ==> s == t && |results| == required && CommandError(world, required).None?
      ensures t.patch == if preserved then NO_PATCH else s.patch
      ensures t.status != Completed ==> t.failureCode.Some? || aborted || timedOut
      ensures t.failureCode.None? ==> t.status in {Completed, Cancelled, TimedOut}
      ensures preserved <==> LosesWorktree(world, required)
      ensures t.failureCode.Some? <==> CommandError(world, required).Some?
      ensures t.failureCode.Some? ==> t.failureCode.value == GetFailureCode(CommandError(world, required).value)
      ensures !aborted && !timedOut ==> (t.status == Completed <==> CommandError(world, required).None?)
    {
      Pass();
      var thrown;
      results, thrown := RunEach(required, world);
      t, preserved := s, false;
      if thrown.Some? {
        t := t.(failureCode := Some(GetFailureCode(thrown.value)), status := ClassifyRunError(thrown.value, aborted, timedOut));
        if thrown.value == Coded("DOCKER_CONTAINER_CLEANUP_FAILED") {
          preserved := true;
          t := t.(patch := NO_PATCH);
        }
      } else if aborted {
        t := t.(status := Cancelled);
      } else if timedOut {
        t := t.(status := TimedOut);
      }
    }

    /** The required commands and the integrity check behind them. A run stays completed only if every
        command ran and none failed. */
    method RunCommands(required: nat, s: Locals, world: World) returns (t: Locals, results: seq<CommandResult>)
      requires Coherent(s)
      modifies this`aborted, this`timedOut, this`overdue
      ensures Onwards()
      ensures |results| <= required && forall k :: 0 <= k < |results| ==> world.commands(k) == Ran(results[k])
      ensures s.status != Completed ==> t == s && results == []
      ensures s.status == Completed ==> t.patch == if LosesWorktree(world, required) then NO_PATCH else s.patch
      ensures t.status == Completed ==>
                && s == t && |results| == required && (forall k :: 0 <= k < required ==> !HasFailed(results[k]))
                && CommandCode(world, required).None?
      ensures t.status != Completed ==> t.failureCode.Some? || aborted || timedOut
      ensures t.failureCode.None? ==> t.status in {Completed, Cancelled, TimedOut}
      ensures s.status == Completed && !aborted && !timedOut ==> Coherent(t) && t.failureCode == CommandCode(world, required)
      ensures s.status == Completed && !aborted && !timedOut && CommandError(world, required).None?
              && IntegrityError(world, required).None? && SomeCommandFailed(world, required) ==>
                t == s.(status := Failed, failureCode := Some("VALIDATION_COMMAND_FAILED"))
    {
      t, results := s, [];
      if s.status == Completed {
        var preserved;
        t, results, preserved := RunRequired(required, s, world);
        if required > 0 && !preserved {
          Pass();
          if world.integrity.Some? { t := AfterError(t, world.integrity.value, aborted, timedOut); }
        }
        NoCommandError(world, required);
        if t.status == Completed && exists k :: 0 <= k < |results| && HasFailed(results[k]) {
          t := t.(status := Failed, failureCode := OrCode(t.failureCode, "VALIDATION_COMMAND_FAILED"));
        }
      }
    }

    /** Validation, and its event. */
    method Validate(run: Id, task: Task, s: Locals, world: World, ghost worker: WorkerId)
      returns (t: Locals, results: seq<CommandResult>, r: AppendResult)
      requires Valid() && Running(State(), run) && run < nextId && |events| < MAX_EVENTS_PER_TASK && ValidTask(task)
      requires Current().workerOutcome.Some? && (s.status == Completed ==> Current().workerOutcome == Some(true))
      requires Current().validation.None? && Current().evaluation.None? && Coherent(s)
      requires s.status == Completed ==> Trail(events, run, worker, ProducedEvent(run, s), None)
      modifies this`events, this`failed, this`aborted, this`timedOut, this`overdue
      ensures Valid() && |events| <= |old(events)| + 1 && r != Refused && r != Full && (r != Committed ==> failed)
      ensures Onwards()
      ensures t.status != Completed ==> t.failureCode.Some? || aborted || timedOut
      ensures t.failureCode.None? ==> t.status in {Completed, Cancelled, TimedOut}
      ensures t.status == Completed ==>
                && s == t && |results| == task.requiredCommandCount && CommandCode(world, task.requiredCommandCount).None?
                && (forall k :: 0 <= k < |results| ==> world.commands(k) == Ran(results[k]) && !HasFailed(results[k]))
      ensures s.status != Completed ==> t == s
      ensures s.status == Completed ==> t.patch == if LosesWorktree(world, task.requiredCommandCount) then NO_PATCH else s.patch
      ensures s.status == Completed && !aborted && !timedOut ==>
                Coherent(t) && t.failureCode == CommandCode(world, task.requiredCommandCount)
      ensures r == Committed ==>
                && events == old(events) + [ValidationCompleted(run,
                     if task.requiredCommandCount == 0 then ValidationSkipped
                     else if t.status == Completed then ValidationPassed else ValidationFailed, |results|)]
                && Within(old(State()), State(), run) && AfterValidation(Current(), t.status == Completed)
                && (t.status == Completed ==> Trail(events, run, worker, ProducedEvent(run, t), None))
    {
      t, results := RunCommands(task.requiredCommandCount, s, world);
      r := RecordValidation(run, task, s, t.status == Completed, |results|, worker);
    }

    /** ValidationCompleted. */
    method RecordValidation(run: Id, task: Task, s: Locals, completed: bool, count: nat, ghost worker: WorkerId)
      returns (r: AppendResult)
      requires Valid() && Running(State(), run) && run < nextId && |events| < MAX_EVENTS_PER_TASK && ValidTask(task)
      requires Current().workerOutcome.Some? && (s.status == Completed ==> Current().workerOutcome == Some(true))
      requires Current().validation.None? && Current().evaluation.None? && (completed ==> s.status == Completed)
      requires s.status == Completed ==> Trail(events, run, worker, ProducedEvent(run, s), None)
      requires count <= task.requiredCommandCount && (completed ==> count == task.requiredCommandCount)
      modifies this`events, this`failed
      ensures Valid() && |events| <= |old(events)| + 1 && r != Refused && r != Full && (r != Committed ==> failed)
      ensures old(failed) ==> failed
      ensures r == Committed ==>
                && events == old(events) + [ValidationCompleted(run,
                     if task.requiredCommandCount == 0 then ValidationSkipped
                     else if completed then ValidationPassed else ValidationFailed, count)]
                && Within(old(State()), State(), run) && AfterValidation(Current(), completed)
                && (s.status == Completed ==> Trail(events, run, worker, ProducedEvent(run, s), None))
    {
      var outcome := if task.requiredCommandCount == 0 then ValidationSkipped
                     else if completed then ValidationPassed else ValidationFailed;
      var e := ValidationCompleted(run, outcome, count);
      if s.status == Completed { TrailSnoc(events, e, run, worker, ProducedEvent(run, s), None); }
      r := Observe(run, e);
    }

    /** evaluateWithCancellation, and the check of its result. It throws at once if a signal is up. */
    method EvaluateWithCancellation(k: nat, evaluatorIds: seq<string>, input: EvaluationInput, world: World)
      returns (r: Result<EvaluationResult, Error>)
      requires k < |evaluatorIds| && evaluatorIds[0] == DETERMINISTIC_ID
      modifies this`aborted, this`timedOut, this`overdue
      ensures Onwards()
      ensures old(aborted) || old(timedOut) ==> r.Err?
      ensures r.Ok? ==>
                && ValidResult(r.value) && r.value.evaluatorId == evaluatorIds[k]
                && (k > 0 ==> EvaluatorAnswers(world, evaluatorIds, k, input))
                && r.value == AnswerOf(world, k, input)
      ensures !aborted && !timedOut ==> (r.Ok? <==> k == 0 || EvaluatorAnswers(world, evaluatorIds, k, input))
    {
      if aborted || timedOut { return Err(if aborted then AbortError else TimeoutError); }
      Pass();
      var interrupted: bool, error: Error := *, *;
      if interrupted && (aborted || timedOut) { return Err(error); }
      if k == 0 {
        EvaluateIsValid(input);
        return Ok(Evaluate(input));
      }
      var answer := world.evaluators(k, input);
      if answer.Err? { return Err(answer.error); }
      if !ValidResult(answer.value) || answer.value.evaluatorId != evaluatorIds[k] {
        return Err(Coded("INVALID_EVALUATION_RESULT"));
      }
      return Ok(answer.value);
    }

    /** evaluateAll: every evaluator in turn, the built-in one first. */
    method EvaluateAll(evaluatorIds: seq<string>, input: EvaluationInput, world: World)
      returns (r: Result<seq<EvaluationResult>, Error>)
      requires 0 < |evaluatorIds| <= 8 && evaluatorIds[0] == DETERMINISTIC_ID && Distinct(evaluatorIds)
      modifies this`aborted, this`timedOut, this`overdue
      ensures Onwards()
      ensures old(aborted) || old(timedOut) ==> r.Err?
      ensures r.Ok? ==>
                && ValidResults(r.value) && r.value[0] == Evaluate(input)
                && EvaluatorsAnswer(world, evaluatorIds, input) && r.value == ResultsOf(world, evaluatorIds, input)
      ensures !aborted && !timedOut ==> (r.Ok? <==> EvaluatorsAnswer(world, evaluatorIds, input))
    {
      var results: seq<EvaluationResult> := [];
      for i := 0 to |evaluatorIds|
        invariant Onwards()
        invariant i > 0 ==> !old(aborted) && !old(timedOut) && results != [] && results[0] == Evaluate(input)
        invariant Checked(results, evaluatorIds, i)
        invariant forall k :: 1 <= k < i ==> EvaluatorAnswers(world, evaluatorIds, k, input)
        invariant forall k :: 0 <= k < i ==> (k > 0 ==> world.evaluators(k, input).Ok?) && results[k] == AnswerOf(world, k, input)
      {
        var one := EvaluateWithCancellation(i, evaluatorIds, input, world);
        if one.Err? { return Err(one.error); }
        CheckedGrows(results, evaluatorIds, i, one.value);
        results := results + [one.value];
      }
      CheckedIsValid(results, evaluatorIds, input);
      return Ok(results);
    }

    /** The evaluation of the run. One that a signal interrupts is repeated by the built-in evaluator
        alone, for the run as it is then. */
    method EvaluateRun(task: Task, s: Locals, input: EvaluationInput, world: World)
      returns (threw: bool, t: Locals, results: seq<EvaluationResult>)
      requires ValidTask(task) && input.runStatus == s.status && input.failureCode == s.failureCode
      requires s.status == Completed ==> s.failureCode.None?
      requires s.status != Completed ==> s.failureCode.Some? || aborted || timedOut
      modifies this`aborted, this`timedOut, this`overdue
      ensures Onwards()
      ensures !threw ==>
                && ValidResults(results) && Coherent(t)
                && (t.status == Completed ==> s == t) && t == s.(status := t.status, failureCode := t.failureCode)
                && (t.status != Completed ==> Aggregate(results) == EvaluationFailed)
      ensures threw ==> !aborted && !timedOut
      ensures !aborted && !timedOut ==> (threw <==> !EvaluatorsAnswer(world, task.evaluatorIds, input))
      ensures !aborted && !timedOut && !threw ==> t == s && results == ResultsOf(world, task.evaluatorIds, input)
    {
      t, threw := s, false;
      var evaluated := EvaluateAll(task.evaluatorIds, input, world);
      match evaluated {
        case Ok(all) =>
          results := all;
          OutcomeOfFirst(input, results);
          Pass();
          if !(aborted || timedOut) || t.status != Completed { return; }
          t := t.(status := if aborted then Cancelled else TimedOut, failureCode := Some("WORKER_ABORTED"));
        case Err(error) =>
          if !aborted && !timedOut { return true, t, []; }
          t := t.(status := ClassifyRunError(error, aborted, timedOut), failureCode := Some("WORKER_ABORTED"));
      }
      var again := input.(runStatus := t.status, failureCode := t.failureCode);
      results := [Evaluate(again)];
      DeterministicAgrees(0, again, task.policy);
    }

    /** EvaluationCompleted. The acceptor refuses it only when the evaluators contradict each other. */
    method RecordEvaluation(run: Id, task: Task, s: Locals, results: seq<EvaluationResult>, ghost worker: WorkerId)
      returns (r: AppendResult)
      requires Valid() && Running(State(), run) && run < nextId && |events| < MAX_EVENTS_PER_TASK
      requires Coherent(s) && Judged(s, Aggregate(results), task.policy) && ValidResults(results)
      requires AfterValidation(Current(), s.status == Completed)
      requires s.status == Completed ==> Trail(events, run, worker, ProducedEvent(run, s), None)
      modifies this`events, this`failed, this`aborted, this`timedOut, this`overdue
      ensures Valid() && |events| <= |old(events)| + 1 && r != Full
      ensures Onwards()
      ensures r == Refused ==> Unrecordable(EvaluationEvent(run, results, task.policy))
      ensures r.Threw? ==> aborted || timedOut || failed
      ensures r == Committed ==>
                && Within(old(State()), State(), run) && Concluded(Current(), s.status, s.failureCode)
                && (s.status == Completed ==>
                      Trail(events, run, worker, ProducedEvent(run, s), Some(EvaluationEvent(run, results, task.policy))))
    {
      var e := EvaluationEvent(run, results, task.policy);
      AttemptTakes(State(), run, e);
      EvaluationEventValid(run, results, task.policy);
      if s.status == Completed { TrailSnoc(events, e, run, worker, ProducedEvent(run, s), None); }
      r := Publish(e, s.status == Completed);
    }

    /** AttemptCompleted, once the report is persisted. */
    method RecordAttempt(run: Id, s: Locals, report: Report) returns (r: AppendResult)
      requires Valid() && Running(State(), run) && run < nextId && |events| < MAX_EVENTS_PER_TASK
      requires Concluded(Current(), s.status, s.failureCode)
      requires report.runId == run && report.status == s.status && report.failureCode == s.failureCode
      requires s.status == Completed ==> Evidenced(events, report, None)
      modifies this`events, this`failed, this`aborted, this`timedOut, this`overdue
      ensures Valid() && |events| <= |old(events)| + 1 && r != Refused && r != Full
      ensures Onwards()
      ensures r != Committed ==> aborted || timedOut || failed
      ensures r == Committed ==>
                && Attempted(old(State()), State(), report)
                && (s.status == Completed ==>
                      Evidenced(events, report, Some(AttemptCompleted(run, s.status, s.failureCode))))
    {
      if * {
        failed := true;
        return Threw(OtherError);
      }
      var e := AttemptCompleted(run, s.status, s.failureCode);
      AttemptEnds(State(), run, s.status, s.failureCode);
      EndFound(events, e);
      r := Publish(e, s.status == Completed);
    }

    /** executeInWorktree, from the started attempt on. Undisturbed, the report tells the first trouble the
        attempt met, and is completed exactly if there was none. */
    method FinishAttempt(run: Id, worker: WorkerId, task: Task, world: World) returns (exit: AttemptExit)
      requires Valid() && Running(State(), run) && run < nextId && ValidTask(task)
      requires Current() == NewAttempt(run, worker, Current().attemptNumber) && Trail(events, run, worker, None, None)
      requires |events| + task.maxIterations + task.limits.maxTotalToolCalls + 5 <= MAX_EVENTS_PER_TASK
      modifies this`events, this`failed, this`aborted, this`timedOut, this`overdue
      ensures Valid() && |events| <= |old(events)| + task.maxIterations + task.limits.maxTotalToolCalls + 5
      ensures Onwards()
      ensures exit.AttemptThrew? && exit.refused.Some? ==> Unrecordable(exit.refused.value)
      ensures exit.AttemptThrew? && exit.refused.None? ==> !Quiet() || !Reliable(task, world)
      ensures exit.Reported? ==>
                var report := exit.report;
                && Attempted(old(State()), State(), report) && report.runId == run
                && (report.status == Completed ==>
                      Evidenced(events, report, Some(AttemptCompleted(run, report.status, report.failureCode))))
      ensures exit.Reported? && Quiet() ==> exit.report.failureCode == Trouble(task, world)
      ensures exit.Reported? && Quiet() && LoopEnds(task, world).Some? && CollectsCleanly(world) ==>
                exit.report.status == ClassifyRunError(LoopEnds(task, world).value, false, false)
    {
      var loop := RunAgentLoop(run, task.maxIterations, task.limits, world);
      var s := Locals(Completed, None, 0, NO_PATCH);
      match loop {
        case Unrecorded(refused) => return AttemptThrew(refused);
        case Stopped(error) =>
          s := s.(status := ClassifyRunError(error, aborted, timedOut), failureCode := Some(GetFailureCode(error)));
        case Finished =>
      }
      SameTrail(old(events), events, run, worker);
      var r := CompleteWorker(run, s, worker);
      if r != Committed { return AttemptThrew(None); }
      exit := JudgeWork(run, worker, task, world, s);
    }

    /** executeInWorktree behind the worker's end: the patch, the validation, and the evaluation. */
    method JudgeWork(run: Id, worker: WorkerId, task: Task, world: World, s: Locals) returns (exit: AttemptExit)
      requires Valid() && Running(State(), run) && run < nextId && ValidTask(task)
      requires AfterWorker(Current(), s.status == Completed) && Current().patch.None?
      requires Coherent(s) && s.changedFileCount == 0 && s.patch == NO_PATCH
      requires Trail(events, run, worker, None, None) && |events| + 4 <= MAX_EVENTS_PER_TASK
      modifies this`events, this`failed, this`aborted, this`timedOut, this`overdue
      ensures Valid() && |events| <= |old(events)| + 4
      ensures Onwards()
      ensures exit.AttemptThrew? && exit.refused.Some? ==> Unrecordable(exit.refused.value)
      ensures exit.AttemptThrew? && exit.refused.None? ==> !Quiet() || !Reliable(task, world)
      ensures exit.Reported? ==>
                var report := exit.report;
                && Attempted(old(State()), State(), report) && report.runId == run
                && (report.status == Completed ==>
                      Evidenced(events, report, Some(AttemptCompleted(run, report.status, report.failureCode))))
      ensures exit.Reported? && Quiet() ==>
                && exit.report.failureCode == TroubleBehind(task, world, s.failureCode)
                && (s.status != Completed && CollectsCleanly(world) ==> exit.report.status == s.status)
    {
      var collected := CollectPatch(run, s, world, worker);
      var validated, results, r := Validate(run, task, collected, world, worker);
      if r != Committed { return AttemptThrew(None); }
      if Quiet() { CodeBehind(task, world, s.failureCode, collected, validated, results); }
      exit := ConcludeAttempt(run, worker, task, world, validated, results);
    }

    /** From validation to the judged status, and the patch that is kept. */
    method JudgeRun(task: Task, world: World, validated: Locals, ran: seq<CommandResult>)
      returns (threw: bool, t: Locals, results: seq<EvaluationResult>)
      requires ValidTask(task)
      requires validated.status != Completed ==> validated.failureCode.Some? || aborted || timedOut
      requires validated.status == Completed ==> validated.failureCode.None?
      modifies this`aborted, this`timedOut, this`overdue
      ensures Onwards()
      ensures !threw ==>
                && ValidResults(results) && Coherent(t) && Judged(t, Aggregate(results), task.policy)
                && (t.status == Completed ==> t == validated) && t.changedFileCount == validated.changedFileCount
                && t.patch == if Reports(results[0], PatchSize, Failing) then NO_PATCH else validated.patch
      ensures threw ==> !aborted && !timedOut && !Reliable(task, world)
      ensures !aborted && !timedOut && !threw ==>
                && t.failureCode == JudgedCode(task, world, validated, ran)
                && (validated.status != Completed ==> t.status == validated.status)
                && (validated.status == Completed && task.implementation && validated.changedFileCount == 0 ==> t.status == Blocked)
    {
      var s := AfterChanges(task, validated);
      var input := InputOf(task, world, s, ran);
      threw, t, results := EvaluateRun(task, s, input, world);
      if threw { return; }
      t := Judge(t, Aggregate(results), task.policy);
      if DimensionResult(PatchSize, Failing) in results[0].dimensions {
        FailedDimensionFails(results);
        t := t.(patch := NO_PATCH);
      }
    }

    /** executeInWorktree behind the validation event. */
    method ConcludeAttempt(run: Id, worker: WorkerId, task: Task, world: World, validated: Locals, ran: seq<CommandResult>)
      returns (exit: AttemptExit)
      requires Valid() && Running(State(), run) && run < nextId && ValidTask(task)
      requires AfterValidation(Current(), validated.status == Completed)
      requires validated.status != Completed ==> validated.failureCode.Some? || aborted || timedOut
      requires validated.status == Completed ==> validated.failureCode.None?
      requires validated.status == Completed ==> Trail(events, run, worker, ProducedEvent(run, validated), None)
      requires |events| + 2 <= MAX_EVENTS_PER_TASK
      modifies this`events, this`failed, this`aborted, this`timedOut, this`overdue
      ensures Valid() && |events| <= |old(events)| + 2
      ensures Onwards()
      ensures exit.AttemptThrew? && exit.refused.Some? ==> Unrecordable(exit.refused.value)
      ensures exit.AttemptThrew? && exit.refused.None? ==> !Quiet() || !Reliable(task, world)
      ensures exit.Reported? ==>
                var report := exit.report;
                && Attempted(old(State()), State(), report) && report.runId == run
                && (report.status == Completed ==>
                      Evidenced(events, report, Some(AttemptCompleted(run, report.status, report.failureCode))))
      ensures exit.Reported? && !aborted && !timedOut ==>
                && exit.report.failureCode == JudgedCode(task, world, validated, ran)
                && (validated.status != Completed ==> exit.report.status == validated.status)
    {
      var threw, s, results := JudgeRun(task, world, validated, ran);
      if threw { return AttemptThrew(None); }
      var r := RecordEvaluation(run, task, s, results, worker);
      if r != Committed {
        return AttemptThrew(if r == Refused then Some(EvaluationEvent(run, results, task.policy)) else None);
      }
      var report := Report(run, worker, s.status, s.failureCode, s.changedFileCount,
                           if s.patch.bytes == 0 then None else Some(s.patch.sha256), results, task.policy);
      r := RecordAttempt(run, s, report);
      return if r == Committed then Reported(report) else AttemptThrew(None);
    }

    /** TaskCompleted for the last attempt's report. A completed run is too late behind the deadline. */
    method CompleteTask(report: Report) returns (r: AppendResult)
      requires Valid() && |events| < MAX_EVENTS_PER_TASK
      requires Tells(State(), report)
      requires report.status == Completed ==>
                 Evidenced(events, report, Some(AttemptCompleted(report.runId, report.status, report.failureCode)))
      modifies this`events, this`failed, this`aborted, this`timedOut, this`overdue
      ensures Valid() && |events| <= |old(events)| + 1 && r != Refused && r != Full
      ensures Onwards()
      ensures r != Committed ==> failed || (report.status == Completed && (aborted || overdue))
      ensures r == Committed ==>
                && events == old(events) + [TaskCompleted(Some(report.runId), report.status)]
                && State().status == Some(report.status) && Delivered(events, report)
                && State().lastAttempt == old(State()).lastAttempt && State().attemptCount == old(State()).attemptCount
    {
      Pass();
      if report.status == Completed && (aborted || overdue) { return Threw(if aborted then AbortError else TimeoutError); }
      DeliveredByCompletion(events, report);
      r := Append(TaskCompleted(Some(report.runId), report.status));
    }

    /** One pass of the delegation loop: the next worker's attempt. */
    method ExecuteInWorktree(worker: WorkerId, attemptNumber: nat, task: Task, world: World) returns (exit: AttemptExit)
      requires Valid() && Startable(State(), worker, attemptNumber) && ValidTask(task)
      requires |events| + EVENTS_PER_ATTEMPT <= MAX_EVENTS_PER_TASK
      modifies this`events, this`failed, this`aborted, this`timedOut, this`overdue, this`nextId
      ensures Valid() && |events| <= |old(events)| + EVENTS_PER_ATTEMPT
      ensures Since()
      ensures exit.AttemptThrew? && exit.refused.Some? ==> Unrecordable(exit.refused.value)
      ensures exit.AttemptThrew? && exit.refused.None? ==> !Quiet() || !Reliable(task, world)
      ensures exit.Reported? ==>
                var report := exit.report;
                && Tells(State(), report)
                && State().route == old(State()).route && State().attemptCount == attemptNumber
                && (report.status == Completed ==>
                      Evidenced(events, report, Some(AttemptCompleted(report.runId, report.status, report.failureCode))))
      ensures exit.Reported? && Quiet() ==> exit.report.failureCode == Trouble(task, world)
      ensures exit.Reported? && Quiet() && LoopEnds(task, world).Some? && CollectsCleanly(world) ==>
                exit.report.status == ClassifyRunError(LoopEnds(task, world).value, false, false)
    {
      if !world.seeded { return AttemptThrew(None); }
      var r, run := StartAttempt(worker, attemptNumber);
      if r != Committed { return AttemptThrew(None); }
      exit := FinishAttempt(run, worker, task, world);
    }

    /** Between two attempts, with `index` of them done: `last` is the report of the last one, which
        failed and is worth a fallback. */
    ghost predicate OnRoute(candidates: seq<WorkerId>, maxAttempts: nat, index: nat, last: Option<Report>)
      reads this`events, this`nextId
    {
      && Valid() && |events| <= EventsAfter(index)
      && index <= maxAttempts && ValidData(RouteSelected(candidates, maxAttempts))
      && Between(State(), candidates, maxAttempts, index)
      && (last.None? ==> |events| == 2 && State().lastAttempt.None?)
      && (last.Some? ==> Tells(State(), last.value) && last.value.status == Failed)
      && (State().lastAttempt.Some? ==> IsFallbackEligible(State().lastAttempt.value))
    }

    /** The task has ended with its last attempt's report, and no worker was left that should have been tried:
        fallback was not allowed, the attempt is not worth one, or every attempt has been made. */
    ghost predicate Exhausted(maxAttempts: nat, fallbackEnabled: bool)
      reads this`events, this`nextId
      requires Valid()
    {
      && State().lastAttempt.Some?
      && (fallbackEnabled && IsFallbackEligible(State().lastAttempt.value) ==> State().attemptCount >= maxAttempts)
    }

    /** Why a delegation throws: the acceptor refused what the environment malformed, or the caller's signal, the
        attempt's timer, the deadline, a failed write or an unreliable environment is to blame. */
    ghost predicate Blamed(refused: Option<Event>, reliable: bool)
      reads this`aborted, this`timedOut, this`overdue, this`failed
    {
      if refused.Some? then Unrecordable(refused.value) else !Quiet() || overdue || !reliable
    }

    /** How a delegation returns: with its last attempt's report on record, no worker left that should have been
        tried before the deadline, and undisturbed the first trouble of that attempt. */
    ghost predicate WellReturned(report: Report, maxAttempts: nat, fallbackEnabled: bool, tasks: seq<Task>, worlds: seq<World>)
      reads this`events, this`nextId, this`aborted, this`timedOut, this`overdue, this`failed
      requires Valid()
    {
      && Delivered(events, report) && (overdue || Exhausted(maxAttempts, fallbackEnabled))
      && 1 <= State().attemptCount <= |tasks| == |worlds| && (!fallbackEnabled ==> State().attemptCount == 1)
      && (Quiet() ==>
            report.failureCode == Trouble(tasks[State().attemptCount - 1], worlds[State().attemptCount - 1]))
    }

    /** One candidate: its attempt and, unless the next candidate takes over, the end of the task. */
    method TryCandidate(candidates: seq<WorkerId>, maxAttempts: nat, fallbackEnabled: bool, index: nat, task: Task,
                        world: World, ghost last: Option<Report>)
      returns (exit: Option<DelegateExit>, report: Option<Report>)
      requires OnRoute(candidates, maxAttempts, index, last) && index < maxAttempts && ValidTask(task)
      modifies this`events, this`failed, this`aborted, this`timedOut, this`overdue, this`nextId
      ensures Valid() && |events| <= EventsAfter(index + 1) + 1
      ensures Since()
      ensures exit.Some? && exit.value.DelegateThrew? ==> Blamed(exit.value.refused, Reliable(task, world))
      ensures exit.Some? ==> exit.value != NoAttempt
      ensures exit.Some? && exit.value.Returned? ==>
                && Delivered(events, exit.value.report) && Exhausted(maxAttempts, fallbackEnabled)
                && State().attemptCount == index + 1
                && (Quiet() ==> exit.value.report.failureCode == Trouble(task, world))
      ensures exit.None? ==>
                && fallbackEnabled && report.Some? && OnRoute(candidates, maxAttempts, index + 1, report)
                && (Quiet() ==> report.value.failureCode == Trouble(task, world))
    {
      AttemptFits(index, maxAttempts);
      var attempt := ExecuteInWorktree(candidates[index], index + 1, task, world);
      if attempt.AttemptThrew? { return Some(DelegateThrew(attempt.refused)), None; }
      if ShouldFallback(attempt.report, fallbackEnabled, index, maxAttempts) { return None, Some(attempt.report); }
      var r := CompleteTask(attempt.report);
      return Some(if r == Committed then Returned(attempt.report) else DelegateThrew(None)), None;
    }

    /** Between two attempts: no attempt so far, or a last one whose report is known. */
    ghost predicate RouteSoFar(candidates: seq<WorkerId>, maxAttempts: nat, fallbackEnabled: bool, tasks: seq<Task>,
                               worlds: seq<World>, index: nat, last: Option<Report>)
      reads this`events, this`nextId, this`aborted, this`timedOut, this`failed
    {
      && OnRoute(candidates, maxAttempts, index, last) && index <= maxAttempts <= |candidates| == |tasks| == |worlds|
      && (last.None? <==> index == 0) && (index > 0 ==> fallbackEnabled)
      && (last.Some? && Quiet() ==> last.value.failureCode == Trouble(tasks[index - 1], worlds[index - 1]))
    }

    /** One pass of the delegation loop: the cancel, the deadline (`late`), then the candidate. */
    method NextCandidate(candidates: seq<WorkerId>, maxAttempts: nat, fallbackEnabled: bool, index: nat, tasks: seq<Task>,
                         worlds: seq<World>, ghost last: Option<Report>)
      returns (exit: Option<DelegateExit>, late: bool, report: Option<Report>)
      requires RouteSoFar(candidates, maxAttempts, fallbackEnabled, tasks, worlds, index, last) && index < maxAttempts
      requires ValidTask(tasks[index])
      modifies this`events, this`failed, this`aborted, this`timedOut, this`overdue, this`nextId
      ensures Valid() && |events| <= EventsAfter(maxAttempts) + 1
      ensures Since()
      ensures exit.Some? ==> exit.value != NoAttempt
      ensures old(aborted) ==> exit == Some(DelegateThrew(None)) && events == old(events)
      ensures old(overdue) ==> events == old(events) && (exit == Some(DelegateThrew(None)) || (exit.None? && late))
      ensures exit.Some? && exit.value.DelegateThrew? ==> Blamed(exit.value.refused, AllReliable(tasks, worlds))
      ensures exit.Some? && exit.value.Returned? ==>
                WellReturned(exit.value.report, maxAttempts, fallbackEnabled, tasks, worlds)
      ensures exit.None? && late ==>
                overdue && events == old(events) && RouteSoFar(candidates, maxAttempts, fallbackEnabled, tasks, worlds, index, last)
      ensures exit.None? && !late ==>
                RouteSoFar(candidates, maxAttempts, fallbackEnabled, tasks, worlds, index + 1, report)
    {
      AttemptFits(index, maxAttempts);
      exit, late, report := None, false, None;
      Pass();
      if aborted { return Some(DelegateThrew(None)), false, None; }
      late := overdue;
      if !late {
        exit, report := TryCandidate(candidates, maxAttempts, fallbackEnabled, index, tasks[index], worlds[index], last);
      }
    }

    /** The end of the task with the last attempt's report. */
    method EndWithLast(candidates: seq<WorkerId>, maxAttempts: nat, ghost fallbackEnabled: bool, ghost tasks: seq<Task>,
                       ghost worlds: seq<World>, ghost index: nat, last: Report)
      returns (exit: DelegateExit)
      requires RouteSoFar(candidates, maxAttempts, fallbackEnabled, tasks, worlds, index, Some(last))
      requires index == maxAttempts || overdue
      modifies this`events, this`failed, this`aborted, this`timedOut, this`overdue
      ensures Valid() && |events| <= |old(events)| + 1
      ensures Onwards()
      ensures exit == Returned(last) || (exit == DelegateThrew(None) && failed)
      ensures exit.Returned? ==> WellReturned(last, maxAttempts, fallbackEnabled, tasks, worlds)
    {
      AttemptFits(index - 1, maxAttempts);
      var completed := CompleteTask(last);
      exit := if completed == Committed then Returned(last) else DelegateThrew(None);
    }

    /** The end of a route that ran out of candidates or of time. */
    method EndRoute(candidates: seq<WorkerId>, maxAttempts: nat, ghost fallbackEnabled: bool, ghost tasks: seq<Task>,
                    ghost worlds: seq<World>, ghost index: nat, last: Option<Report>)
      returns (exit: DelegateExit)
      requires RouteSoFar(candidates, maxAttempts, fallbackEnabled, tasks, worlds, index, last)
      requires index == maxAttempts || overdue
      modifies this`events, this`failed, this`aborted, this`timedOut, this`overdue
      ensures Valid() && |events| <= EventsAfter(maxAttempts) + 1
      ensures Onwards()
      ensures exit.DelegateThrew? ==> exit.refused.None? && failed
      ensures exit.Returned? ==> index > 0 && WellReturned(exit.report, maxAttempts, fallbackEnabled, tasks, worlds)
      ensures exit == NoAttempt ==> overdue && index == 0 && events == old(events) + [TaskCompleted(None, TimedOut)]
    {
      EventsGrow(index, maxAttempts);
      if last.Some? {
        exit := EndWithLast(candidates, maxAttempts, fallbackEnabled, tasks, worlds, index, last.value);
        return;
      }
      var r := Append(TaskCompleted(None, TimedOut));
      return if r == Committed then NoAttempt else DelegateThrew(None);
    }

    /** The delegation loop over the selected route. `tasks` is the task as each candidate's profile
        bounds it, `worlds` what each attempt meets. */
    method RunRoute(candidates: seq<WorkerId>, maxAttempts: nat, fallbackEnabled: bool, tasks: seq<Task>, worlds: seq<World>)
      returns (exit: DelegateExit)
      requires |tasks| == |worlds| == |candidates| && forall k :: 0 <= k < |tasks| ==> ValidTask(tasks[k])
      requires OnRoute(candidates, maxAttempts, 0, None)
      modifies this`events, this`failed, this`aborted, this`timedOut, this`overdue, this`nextId
      ensures Valid() && |events| <= EventsAfter(maxAttempts) + 1
      ensures Since()
      ensures exit.DelegateThrew? ==> Blamed(exit.refused, AllReliable(tasks, worlds))
      ensures old(aborted) ==> exit.DelegateThrew?
      ensures old(overdue) ==> !exit.Returned?
      ensures exit == NoAttempt ==> overdue && events == old(events) + [TaskCompleted(None, TimedOut)]
      ensures exit.Returned? ==> WellReturned(exit.report, maxAttempts, fallbackEnabled, tasks, worlds)
    {
      var last: Option<Report> := None;
      var index: nat := 0;
      while index < maxAttempts
        invariant RouteSoFar(candidates, maxAttempts, fallbackEnabled, tasks, worlds, index, last)
        invariant Since()
        invariant index == 0 ==> events == old(events)
        invariant old(aborted) || old(overdue) ==> index == 0
      {
        var done, late, report := NextCandidate(candidates, maxAttempts, fallbackEnabled, index, tasks, worlds, last);
        if done.Some? { return done.value; }
        if late { break; }
        index, last := index + 1, report;
      }
      exit := EndRoute(candidates, maxAttempts, fallbackEnabled, tasks, worlds, index, last);
    }

    /** delegate: route the task, then attempt after attempt until one is not worth a fallback, or the deadline
        has passed. The journal never meets its event limit, and the acceptor never refuses an event for its
        place. */
    method Delegate(candidates: seq<WorkerId>, maxAttempts: nat, fallbackEnabled: bool, tasks: seq<Task>, worlds: seq<World>)
      returns (exit: DelegateExit)
      requires Valid() && events == [TaskCreated]
      requires |tasks| == |worlds| == |candidates| && forall k :: 0 <= k < |tasks| ==> ValidTask(tasks[k])
      modifies this`events, this`failed, this`aborted, this`timedOut, this`overdue, this`nextId
      ensures Valid() && |events| <= EventsAfter(MAX_ATTEMPTS) + 1 < MAX_EVENTS_PER_TASK
      ensures Since()
      ensures exit.DelegateThrew? ==> Blamed(exit.refused, AllReliable(tasks, worlds))
      ensures old(aborted) ==> exit.DelegateThrew?
      ensures old(overdue) ==> !exit.Returned?
      ensures exit == NoAttempt ==>
                && overdue
                && events == [TaskCreated, RouteSelected(candidates, maxAttempts), TaskCompleted(None, TimedOut)]
      ensures exit.Returned? ==> WellReturned(exit.report, maxAttempts, fallbackEnabled, tasks, worlds)
    {
      var selected := RouteSelected(candidates, maxAttempts);
      var r := Append(selected);
      if r != Committed { return DelegateThrew(if r == Refused then Some(selected) else None); }
      exit := RunRoute(candidates, maxAttempts, fallbackEnabled, tasks, worlds);
    }

    /** preparePatchHistory: refuse an unlinked report, and ask for the application. */
    method PreparePatchHistory(report: Report, env: ApplyEnvironment)
      returns (linked: bool, recording: bool, ghost added: seq<Event>)
      requires Valid()
      modifies this`events
      ensures Valid() && events == old(events) + added
      ensures linked <==> !HasPatch(report) || (env.readable && Linked(old(events), report))
      ensures recording <==>
              && HasPatch(report) && linked && |old(events)| < MAX_EVENTS_PER_TASK
              && old(State()).application in {NotRequested, ApplicationRejected} && env.request.Succeeds?
      ensures added == [] || added == [PatchApplicationRequested(report.runId)]
      ensures added != [] ==> old(State()).application in {NotRequested, ApplicationRejected}
      ensures recording ==> added != [] && Requested(State(), report)
    {
      added := [];
      if !HasPatch(report) { return true, false, []; }
      if !env.readable || !Linked(events, report) { return false, false, []; }
      RequestOpens(events, report);
      var r := AppendWith(PatchApplicationRequested(report.runId), env.request);
      if events != old(events) { added := [PatchApplicationRequested(report.runId)]; }
      return true, r == Committed, added;
    }

    /** recordPatchRejection. */
    method RecordRejection(report: Report, recording: bool, error: Error, write: Write) returns (ghost added: seq<Event>)
      requires Valid()
      modifies this`events
      ensures Valid() && events == old(events) + added
      ensures added == [] || (recording && added == [PatchApplicationRejected(report.runId, GetFailureCode(error))])
    {
      added := [];
      if recording {
        var e := PatchApplicationRejected(report.runId, GetFailureCode(error));
        var _ := AppendWith(e, write);
        if events != old(events) { added := [e]; }
      }
    }

    /** The approval of a requested application. */
    method RecordApproval(report: Report, wasRecording: bool, write: Write) returns (recording: bool, ghost added: seq<Event>)
      requires Valid() && (wasRecording ==> Requested(State(), report))
      modifies this`events
      ensures Valid() && events == old(events) + added
      ensures recording <==> wasRecording && |old(events)| < MAX_EVENTS_PER_TASK && write.Succeeds?
      ensures added == [] || (wasRecording && added == [PatchApproved(report.runId)])
      ensures recording ==> added != [] && IsApproved(State(), report)
    {
      recording, added := wasRecording, [];
      if recording {
        var r := AppendWith(PatchApproved(report.runId), write);
        recording := r == Committed;
        if events != old(events) { added := [PatchApproved(report.runId)]; }
      }
    }

    /** The record of an applied patch. */
    method RecordApplied(report: Report, recording: bool, write: Write) returns (recorded: bool, ghost added: seq<Event>)
      requires Valid() && (recording ==> IsApproved(State(), report))
      modifies this`events
      ensures Valid() && events == old(events) + added
      ensures recorded <==> recording && |old(events)| < MAX_EVENTS_PER_TASK && write.Succeeds?
      ensures added == [] || (recording && added == [PatchApplied(report.runId, report.changedFileCount)])
      ensures recorded ==> added != []
    {
      recorded, added := false, [];
      if recording {
        var e := PatchApplied(report.runId, report.changedFileCount);
        var r := AppendWith(e, write);
        recorded := r == Committed;
        if events != old(events) { added := [e]; }
      }
    }

    /** The recorded end of an application: approval, the patch itself, and the record of it. */
    method ApplyAndRecord(report: Report, wasRecording: bool, env: ApplyEnvironment) returns (exit: ApplyExit, ghost added: seq<Event>)
      requires Valid() && (wasRecording ==> Requested(State(), report))
      modifies this`events
      ensures Valid() && events == old(events) + added
      ensures Ending(report, added)
      ensures !wasRecording ==> added == []
      ensures exit.Patched? <==> env.git.None?
      ensures exit == Patched(true) <==>
              && wasRecording && env.git.None? && |old(events)| + 2 <= MAX_EVENTS_PER_TASK
              && env.approval.Succeeds? && env.record.Succeeds?
      ensures exit == Patched(true) ==> |added| == 2 && added[1].PatchApplied?
      ensures exit == NotPatched ==> forall i :: 0 <= i < |added| ==> !added[i].PatchApplied?
    {
      var recording, recorded;
      ghost var approval, end;
      recording, approval := RecordApproval(report, wasRecording, env.approval);
      if env.git.Some? {
        end := RecordRejection(report, recording, env.git.value, env.rejection);
        exit := NotPatched;
      } else {
        recorded, end := RecordApplied(report, recording, env.record);
        exit := Patched(recorded);
      }
      added := approval + end;
      Concatenates(old(events), approval, end);
    }

    /** applyReport: the checks, then the patch; whatever fails is recorded as a rejection. */
    method ApplyReport(report: Report, recording: bool, env: ApplyEnvironment) returns (exit: ApplyExit, ghost added: seq<Event>)
      requires Valid() && (recording ==> Requested(State(), report))
      modifies this`events
      ensures Valid() && events == old(events) + added && (!recording ==> added == [])
      ensures Ending(report, added)
              || (|added| == 1 && added[0].PatchApplicationRejected? && added[0].runId == report.runId)
      ensures exit.Patched? <==> Obstacle(report, env.repository, CHECKS).None? && env.git.None?
      ensures exit == Patched(true) <==>
              && exit.Patched? && recording && |old(events)| + 2 <= MAX_EVENTS_PER_TASK
              && env.approval.Succeeds? && env.record.Succeeds?
      ensures exit == Patched(true) ==> |added| == 2 && added[1].PatchApplied?
      ensures exit == NotPatched ==> forall i :: 0 <= i < |added| ==> !added[i].PatchApplied?
    {
      var error := Obstacle(report, env.repository, CHECKS);
      if error.Some? {
        added := RecordRejection(report, recording, error.value, env.rejection);
        return NotPatched, added;
      }
      exit, added := ApplyAndRecord(report, recording, env);
    }

    /** applyRun. A patch reaches the repository exactly for a completed run whose report its history
        bears out, when every check holds and git applies it. The application is recorded exactly when
        besides no earlier one is open or done, there is room for its events, and every write succeeds. */
    method ApplyRun(report: Report, env: ApplyEnvironment) returns (exit: ApplyExit, ghost added: seq<Event>)
      requires Valid()
      modifies this`events
      ensures Valid() && events == old(events) + added
      ensures Lifecycle(report, added)
      ensures exit.Patched? <==> Fit(old(events), report, env)
      ensures exit == Patched(true) <==>
              && Fit(old(events), report, env) && |old(events)| + 3 <= MAX_EVENTS_PER_TASK
              && old(State()).application in {NotRequested, ApplicationRejected}
              && env.request.Succeeds? && env.approval.Succeeds? && env.record.Succeeds?
      ensures exit == Patched(true) ==> |added| == 3 && added[2].PatchApplied?
      ensures exit == NotPatched ==> forall i :: 0 <= i < |added| ==> !added[i].PatchApplied?
      ensures old(State()).application !in {NotRequested, ApplicationRejected} ==> added == []
    {
      var linked, recording;
      ghost var more;
      linked, recording, added := PreparePatchHistory(report, env);
      NoObstacle(report, env.repository);
      if !linked { return NotPatched, added; }
      exit, more := ApplyReport(report, recording, env);
      ApplicationRecorded(report, old(events), added, more);
      added := added + more;
    }
  }
}
