/** What the workflow service adds to the acceptor's rules, and what follows for its journals. */
module WorkflowDiscipline {
  import opened Domain
  import opened Wrappers
  import opened WorkflowModel
  import opened WorkflowInvariants
  import opened WorkflowWriter

  const MAX_EVENTS_PER_WORKFLOW := 512

  /** The status and failure code of a WorkflowCompleted event. */
  datatype Verdict = Verdict(status: RunStatus, failureCode: Option<string>)

  const CANCELLED := Verdict(Cancelled, Some("WORKFLOW_CANCELLED"))
  const EXPIRED := Verdict(TimedOut, Some("WORKFLOW_DEADLINE_EXCEEDED"))
  const INVALID := Verdict(Blocked, Some("WORKFLOW_CANDIDATE_INVALID"))

  function WorkflowTerminalStatus(status: RunStatus): RunStatus {
    match status
    case Cancelled => Cancelled
    case TimedOut => TimedOut
    case Blocked => Blocked
    case PolicyViolation => Blocked
    case _ => Failed
  }

  function OrStageFailed(code: Option<string>): Option<string> {
    if code.Some? then code else Some("WORKFLOW_STAGE_FAILED")
  }

  /** The outcome that recoverPendingTerminal reads off the last event, if that event fixes one. */
  function FixedOutcome(e: Event): Option<Verdict> {
    match e
    case ApprovalDecided(decision, None) =>
      Some(if decision == Approved then Verdict(Completed, None)
           else Verdict(Failed, Some("WORKFLOW_APPROVAL_REJECTED")))
    case StageCompleted(_, _, _, _, status, failureCode, _, None) =>
      Some(Verdict(WorkflowTerminalStatus(status), OrStageFailed(failureCode)))
    case StageInterrupted(_, _, Cancel) => Some(CANCELLED)
    case StageInterrupted(_, _, Deadline) => Some(EXPIRED)
    case _ => None
  }

  /** A workflow ends as its last stage did and with its code, except that a policy violation blocks it; a
      stage that completed and yet ends the workflow has failed it. */
  lemma EndsAsItsStage(e: Event)
    requires e.StageCompleted? && e.nextStage.None?
    ensures FixedOutcome(e).Some?
    ensures FixedOutcome(e).value.status == e.status <==> e.status !in {PolicyViolation, Completed}
    ensures e.status == PolicyViolation ==> FixedOutcome(e).value.status == Blocked
    ensures e.status == Completed ==> FixedOutcome(e).value.status == Failed
    ensures FixedOutcome(e).value.failureCode == (if e.failureCode.Some? then e.failureCode else Some("WORKFLOW_STAGE_FAILED"))
  {
  }

  /** completeBeforeDeadline: a raised cancel signal or a passed deadline takes over. */
  function BeforeDeadline(v: Verdict, aborted: bool, expired: bool): Verdict {
    if aborted then CANCELLED else if expired then EXPIRED else v
  }

  /** How a fixed outcome is closed: cancellations and timeouts outright, others before the deadline. */
  function Closing(v: Verdict, aborted: bool, expired: bool): Verdict {
    if v.status == Cancelled || v.status == TimedOut then v else BeforeDeadline(v, aborted, expired)
  }

  /** What the run loop closes a stage result with when the result names no next stage. */
  function LoopVerdict(r: StageResult, aborted: bool, expired: bool): Verdict {
    var status := WorkflowTerminalStatus(r.status);
    var code := OrStageFailed(r.failureCode);
    if status == Cancelled || status == TimedOut then Verdict(status, code)
    else BeforeDeadline(Verdict(status, code), aborted, expired)
  }

  /** What approve closes a decision with when it leads to no repair. */
  function ApproveVerdict(decision: Decision, aborted: bool, expired: bool): Verdict {
    BeforeDeadline(Verdict(if decision == Approved then Completed else Failed,
                           if decision == Approved then None else Some("WORKFLOW_APPROVAL_REJECTED")),
                   aborted, expired)
  }

  /** What recovery closes an approval with. The candidate is validated again first, and that validation
      looks at the deadline before anything else. */
  function ApprovalVerdict(evidenceHolds: bool, aborted: bool, expired: bool): Verdict {
    if expired then EXPIRED
    else if !evidenceHolds then BeforeDeadline(INVALID, aborted, expired)
    else BeforeDeadline(Verdict(Completed, None), aborted, expired)
  }

  /** What recoverPendingTerminal closes a fixed outcome with. */
  function RecoveryVerdict(last: Event, evidenceHolds: bool, aborted: bool, expired: bool): Verdict
    requires FixedOutcome(last).Some?
  {
    var fixed := FixedOutcome(last).value;
    if fixed.status != Completed then Closing(fixed, aborted, expired)
    else ApprovalVerdict(evidenceHolds, aborted, expired)
  }

  /** Crash and resume, stages: after a crash behind the stage completion that named no next stage,
      recovery writes the verdict the uninterrupted run loop would have written. */
  lemma RecoveryMatchesLoop(r: StageResult, stage: StageName, executionId: Id,
                            evidenceHolds: bool, aborted: bool, expired: bool)
    requires r.nextStage.None?
    ensures var last := CompletionEvent(stage, executionId, r);
            && FixedOutcome(last).Some?
            && RecoveryVerdict(last, evidenceHolds, aborted, expired) == LoopVerdict(r, aborted, expired)
  {
  }

  /** Crash and resume, approvals: with the candidate's evidence still valid, recovery writes the verdict
      the uninterrupted approve would have written, except for an approval found both cancelled and
      past its deadline, which approve records as cancelled and recovery as timed out. */
  lemma RecoveryMatchesApprove(decision: Decision, aborted: bool, expired: bool)
    ensures var last := ApprovalDecided(decision, None);
            && FixedOutcome(last).Some?
            && (RecoveryVerdict(last, true, aborted, expired) == ApproveVerdict(decision, aborted, expired) <==>
                !(decision == Approved && aborted && expired))
  {
  }

  // ----- The discipline -----

  predicate WorkBegan(es: seq<Event>) {
    exists i :: 0 <= i < |es| && (es[i].StageStarted? || es[i] == DependencyStateChanged(true))
  }

  /** The ways a fixed outcome may be closed over all runs, cancellations and lost evidence. */
  predicate MayClose(v: Verdict, w: Verdict) {
    || w == v
    || w == CANCELLED
    || (w == EXPIRED && v.status != Cancelled)
    || (w == INVALID && v.status == Completed)
  }

  /** Events the service may append: an outcome once fixed is closed next, and dependencies are
      reported only before work begins. */
  predicate MayFollow(es: seq<Event>, e: Event)
    requires es != []
  {
    && (var fixed := FixedOutcome(es[|es| - 1]);
        fixed.Some? ==> e.WorkflowCompleted? && MayClose(fixed.value, Verdict(e.status, e.failureCode)))
    && (e.DependencyStateChanged? ==> !WorkBegan(es))
  }

  predicate Disciplined(es: seq<Event>) {
    && Accepted(es)
    && (|es| > 1 ==> Disciplined(es[..|es| - 1]) && MayFollow(es[..|es| - 1], es[|es| - 1]))
  }

  /** Stopping the service between any two appends leaves a journal it can resume from. */
  lemma {:induction false} DisciplinedPrefix(es: seq<Event>, k: nat)
    requires Disciplined(es) && 0 < k <= |es|
    ensures Disciplined(es[..k])
  {
    if k < |es| {
      var before := es[..|es| - 1];
      DisciplinedPrefix(before, k);
      assert before[..k] == es[..k];
    } else {
      assert es[..k] == es;
    }
  }

  lemma DisciplinedSnoc(es: seq<Event>, e: Event)
    requires Disciplined(es) && Accepted(es + [e]) && MayFollow(es, e)
    ensures Disciplined(es + [e])
  {
    assert (es + [e])[..|es|] == es;
  }

  lemma CreatedIsDisciplined(d: Definition)
    requires ValidDefinition(d)
    ensures Disciplined([WorkflowCreated(d)]) && !WorkBegan([WorkflowCreated(d)])
    ensures Replay([WorkflowCreated(d)]) == Some(ProjectCreated(d))
  {
    var es := [WorkflowCreated(d)];
    assert es[..|es| - 1] == [];
    assert Replay(es) == Project(None, es[0]);
  }

  /** Nothing runs, nothing waits, and the fixed verdict can be written down. */
  predicate ReadyToClose(p: Projection, e: Event) {
    var fixed := FixedOutcome(e);
    && p.activeExecutionId.None? && !p.approvalRequested && !p.status.Ended?
    && (fixed.Some? ==>
          && fixed.value.status != PolicyViolation
          && ValidCode(fixed.value.failureCode)
          && (fixed.value.status == Completed <==> fixed.value.failureCode.None?)
          && (fixed.value.status == Completed ==>
                p.approvalDecision == Some(Approved) && p.candidateRunId.Some?))
  }

  lemma FixingStep(p: Projection, e: Event)
    requires StateInvariant(p) && Project(Some(p), e).Some? && FixedOutcome(e).Some?
    ensures ReadyToClose(Project(Some(p), e).value, e)
  {
  }

  lemma FixedIsIdle(es: seq<Event>)
    requires Accepted(es) && FixedOutcome(es[|es| - 1]).Some?
    ensures ReadyToClose(Replay(es).value, es[|es| - 1])
  {
    var before := es[..|es| - 1];
    assert Project(Replay(before), es[|es| - 1]) == Replay(es);
    AcceptedState(before);
    FixingStep(Replay(before).value, es[|es| - 1]);
  }

  lemma PendingStep(p: Projection, e: Event)
    requires Project(Some(p), e).Some? && FixedOutcome(e).None?
    requires Project(Some(p), e).value.currentStage.None? && !Project(Some(p), e).value.status.Ended?
    ensures p.currentStage.None? && !p.status.Ended? && !e.WorkflowCompleted?
  {
  }

  /** A workflow that is not finished and has no stage left has an outcome waiting to be closed. */
  lemma {:induction false} OutcomePending(es: seq<Event>)
    requires Disciplined(es)
    requires Replay(es).value.currentStage.None? && !Replay(es).value.status.Ended?
    ensures FixedOutcome(es[|es| - 1]).Some?
  {
    var n := |es| - 1;
    var before := es[..n];
    assert Project(Replay(before), es[n]) == Replay(es);
    if before != [] && FixedOutcome(es[n]).None? {
      DisciplinedPrefix(es, n);
      PendingStep(Replay(before).value, es[n]);
      assert MayFollow(before, es[n]);
      OutcomePending(before);
    }
  }

  lemma {:induction false} NoWorkNoStart(es: seq<Event>)
    requires !WorkBegan(es)
    ensures Tally(es, AnyStart) == 0
  {
    if es != [] {
      var n := |es| - 1;
      assert !es[n].StageStarted?;
      assert forall i :: 0 <= i < n ==> es[..n][i] == es[i];
      NoWorkNoStart(es[..n]);
    }
  }

  /** Reports so far, by how far the workflow has come. */
  predicate ReportsSoFar(p: Projection, began: bool, reports: nat) {
    && reports <= 2
    && (!began ==> reports <= 1)
    && (!began && !p.status.Ended? ==>
          p.status in {Pending, WaitingForDependency} && reports == (if p.status == WaitingForDependency then 1 else 0))
  }

  lemma ReportStep(p: Projection, began: bool, reports: nat, e: Event)
    requires StateInvariant(p) && Project(Some(p), e).Some?
    requires ReportsSoFar(p, began, reports)
    requires !began ==> p.transitionCount == 0
    requires e.DependencyStateChanged? ==> !began
    ensures ReportsSoFar(Project(Some(p), e).value,
                         began || e.StageStarted? || e == DependencyStateChanged(true),
                         reports + (if e.DependencyStateChanged? then 1 else 0))
  {
  }

  lemma WorkBeganSnoc(es: seq<Event>, e: Event)
    ensures WorkBegan(es + [e]) <==> WorkBegan(es) || e.StageStarted? || e == DependencyStateChanged(true)
  {
    var more := es + [e];
    assert more[|es|] == e;
    assert forall i :: 0 <= i < |es| ==> more[i] == es[i];
  }

  /** At most one wait and one release is ever reported. */
  lemma {:induction false} DependencyReports(es: seq<Event>)
    requires Disciplined(es)
    ensures ReportsSoFar(Replay(es).value, WorkBegan(es), Tally(es, AnyReport))
  {
    var n := |es| - 1;
    var before, e := es[..n], es[n];
    assert es == before + [e] && Project(Replay(before), e) == Replay(es);
    TallySnoc(before, e);
    WorkBeganSnoc(before, e);
    if before != [] {
      DisciplinedPrefix(es, n);
      DependencyReports(before);
      assert MayFollow(es[..n], es[n]);
      AcceptedState(before);
      AcceptedCounts(before);
      if !WorkBegan(before) { NoWorkNoStart(before); }
      ReportStep(Replay(before).value, WorkBegan(before), Tally(before, AnyReport), e);
    }
  }

  /** Before its work begins a workflow is pending, or waits for a dependency. */
  lemma NotBegun(es: seq<Event>)
    requires Disciplined(es) && !WorkBegan(es) && !Replay(es).value.status.Ended?
    ensures Replay(es).value.status in {Pending, WaitingForDependency} && !Replay(es).value.approvalRequested
  {
    AcceptedState(es);
    DependencyReports(es);
  }

  /** While a workflow waits for a dependency, its work has not begun. */
  lemma DependencyBlocksWork(es: seq<Event>)
    requires Disciplined(es) && Replay(es).value.status == WaitingForDependency
    ensures !WorkBegan(es)
  {
    var n := |es| - 1;
    var before, e := es[..n], es[n];
    assert es == before + [e] && Project(Replay(before), e) == Replay(es);
    if before != [] && e.DependencyStateChanged? {
      assert MayFollow(es[..n], es[n]);
      WorkBeganSnoc(before, e);
    }
  }

  lemma {:induction false} WorkAndReports(es: seq<Event>)
    ensures |es| == Tally(es, AnyWork) + Tally(es, AnyReport)
  {
    if es != [] { WorkAndReports(es[..|es| - 1]); }
  }

  /** A journal the service writes holds at most 144 events, far below the 512 the journal allows. */
  lemma DisciplinedLength(es: seq<Event>)
    requires Disciplined(es)
    ensures |es| <= 144 < MAX_EVENTS_PER_WORKFLOW
  {
    WorkflowBounds(es);
    DependencyReports(es);
    WorkAndReports(es);
  }

  /** Whether the workflow waits behind so many alternating reports. */
  predicate Waits(n: nat) {
    n > 0 && !Waits(n - 1)
  }

  /** The acceptor alone bounds nothing of the kind: dependency reports may alternate for ever. */
  function Alternating(d: Definition, n: nat): (es: seq<Event>)
    ensures |es| == n + 1
  {
    if n == 0 then [WorkflowCreated(d)]
    else Alternating(d, n - 1) + [DependencyStateChanged(Waits(n - 1))]
  }

  lemma AlternatingStep(p: Projection, ready: bool)
    requires p.definition.dependencyWorkflowIds != [] && p.activeExecutionId.None? && !p.approvalRequested
    requires p.status == if ready then WaitingForDependency else Pending
    ensures Project(Some(p), DependencyStateChanged(ready))
         == Some(p.(status := if ready then Pending else WaitingForDependency))
  {
  }

  function AlternatingState(d: Definition, n: nat): Projection {
    ProjectCreated(d).(status := if Waits(n) then WaitingForDependency else Pending)
  }

  lemma ReportOnce(es: seq<Event>, p: Projection, ready: bool)
    requires Replay(es) == Some(p)
    requires p.definition.dependencyWorkflowIds != [] && p.activeExecutionId.None? && !p.approvalRequested
    requires p.status == if ready then WaitingForDependency else Pending
    ensures Replay(es + [DependencyStateChanged(ready)])
         == Some(p.(status := if ready then Pending else WaitingForDependency))
  {
    AlternatingStep(p, ready);
    ReplaySnoc(es, DependencyStateChanged(ready));
  }

  lemma AlternatingBegins(d: Definition)
    requires ValidDefinition(d)
    ensures Replay(Alternating(d, 0)) == Some(AlternatingState(d, 0))
  {
    CreatedIsDisciplined(d);
  }

  lemma {:induction false} DependencyReportsUnbounded(d: Definition, n: nat)
    requires ValidDefinition(d) && d.dependencyWorkflowIds != []
    ensures |Alternating(d, n)| == n + 1
    ensures Replay(Alternating(d, n)) == Some(AlternatingState(d, n))
  {
    if n == 0 {
      AlternatingBegins(d);
    } else {
      DependencyReportsUnbounded(d, n - 1);
      ReportOnce(Alternating(d, n - 1), AlternatingState(d, n - 1), Waits(n - 1));
    }
  }
}
