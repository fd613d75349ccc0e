/** The workflow service as the writer of a journal: run, approve and cancel
    (src/workflow/service.ts). Every journal append goes through the acceptor, and every method below
    keeps the journal in a state from which the service can be resumed.

    The environment is the class's own nondeterminism: time passes, the cancel signal is raised, and
    the workflows this one depends on grow their own journals. */
module WorkflowService {
  import opened Domain
  import opened Wrappers
  import opened WorkflowModel
  import opened WorkflowInvariants
  import opened WorkflowWriter
  import opened WorkflowDiscipline
  import opened WorkflowEvidence

  datatype AppendResult = Committed | Refused | Signalled | IoFailure

  /** How a run of the service ends. `NotRecordable` carries what the acceptor refused. */
  datatype Exit =
    | Returned
    | ThrewTimeout
    | ThrewOther
    | NotRecordable(p: Projection, retries: nat, stage: StageName, outcome: Outcome, aborted: bool, expired: bool)
  {
    /** What was refused is the record of the stage that the last event starts, for what its delegation
        came back with, and the caller could have seen that to be unrecordable. */
    ghost predicate Explains(es: seq<Event>, delegate: seq<Event> -> Outcome, cancelled: bool, late: bool) {
      NotRecordable? ==>
        && !Recordable(p, retries, stage, outcome, aborted, expired) && outcome == delegate(es)
        && RunsStage(es, stage) && Some(p) == Replay(es[..|es| - 1]) && retries == RetryTransitionCount(es[..|es| - 1], stage)
        && (aborted ==> cancelled) && (expired ==> late)
    }
  }

  /** The last event starts the stage. */
  predicate RunsStage(es: seq<Event>, stage: StageName) {
    && |es| >= 2 && es[|es| - 1].StageStarted? && es[|es| - 1].stage == stage && Accepted(es[..|es| - 1])
  }

  /** The record of a stage that the history before it starts, for what the delegation came back with. */
  ghost predicate RecordedFor(before: seq<Event>, e: Event, delegate: seq<Event> -> Outcome, aborted: bool, expired: bool)
    requires e.StageCompleted?
  {
    && RunsStage(before, e.stage)
    && var earlier, start := before[..|before| - 1], before[|before| - 1];
    exists cancelled, late :: (cancelled ==> aborted) && (late ==> expired)
      && e == RecordedEvent(Replay(earlier).value, RetryTransitionCount(earlier, e.stage), e.stage, start.executionId,
                            delegate(before), cancelled, late)
  }

  /** Every stage completed behind the first `since` events is recorded so. */
  ghost predicate Delegated(es: seq<Event>, since: nat, delegate: seq<Event> -> Outcome, aborted: bool, expired: bool) {
    |es| > since ==>
      var before, e := es[..|es| - 1], es[|es| - 1];
      && Delegated(before, since, delegate, aborted, expired)
      && (e.StageCompleted? ==> RecordedFor(before, e, delegate, aborted, expired))
  }

  lemma DelegatedSnoc(es: seq<Event>, e: Event, since: nat, delegate: seq<Event> -> Outcome, aborted: bool, expired: bool)
    requires Delegated(es, since, delegate, aborted, expired) && since <= |es|
    requires e.StageCompleted? ==> RecordedFor(es, e, delegate, aborted, expired)
    ensures Delegated(es + [e], since, delegate, aborted, expired)
  {
    assert (es + [e])[..|es|] == es;
  }

  lemma {:induction false} DelegatedLater(es: seq<Event>, since: nat, delegate: seq<Event> -> Outcome,
                                          aborted: bool, expired: bool, cancelled: bool, late: bool)
    requires Delegated(es, since, delegate, aborted, expired) && (aborted ==> cancelled) && (expired ==> late)
    ensures Delegated(es, since, delegate, cancelled, late)
  {
    if |es| > since { DelegatedLater(es[..|es| - 1], since, delegate, aborted, expired, cancelled, late); }
  }

  datatype ApproveExit = Decided | NotWaiting | ApproveThrew

  datatype DependencyState = AllReady | SomeWaiting | SomeFailed | CheckThrew(timeout: bool)

  /** The first n of these journals are accepted histories. */
  predicate FirstAccepted(journals: seq<seq<Event>>, n: nat) {
    n <= |journals| && (n > 0 ==> Accepted(journals[n - 1]) && FirstAccepted(journals, n - 1))
  }

  predicate IsCompleted(journal: seq<Event>) {
    Accepted(journal) && Replay(journal).value.status == Ended(Completed)
  }

  /** The first n of these workflows have completed. */
  predicate FirstCompleted(journals: seq<seq<Event>>, n: nat) {
    n <= |journals| && (n > 0 ==> IsCompleted(journals[n - 1]) && FirstCompleted(journals, n - 1))
  }

  predicate AllCompleted(journals: seq<seq<Event>>) {
    FirstCompleted(journals, |journals|)
  }

  lemma {:induction false} AcceptedAt(journals: seq<seq<Event>>, n: nat, i: nat)
    requires FirstAccepted(journals, n) && i < n
    ensures Accepted(journals[i])
  {
    if i < n - 1 { AcceptedAt(journals, n - 1, i); }
  }

  lemma {:induction false} NotAllCompleted(journals: seq<seq<Event>>, n: nat, i: nat)
    requires i < n <= |journals| && !IsCompleted(journals[i])
    ensures !FirstCompleted(journals, n)
  {
    if i < n - 1 { NotAllCompleted(journals, n - 1, i); }
  }

  /** The first of these workflows that has not completed has ended, or has not. */
  predicate HeldUp(journals: seq<seq<Event>>, ended: bool) {
    exists i: nat :: i < |journals| && FirstCompleted(journals, i) && HeldUpAt(journals, i, ended)
  }

  predicate HeldUpAt(journals: seq<seq<Event>>, i: nat, ended: bool)
    requires i < |journals|
  {
    Accepted(journals[i]) && !IsCompleted(journals[i]) && Replay(journals[i]).value.status.Ended? == ended
  }

  /** The first n journals have grown, but for those that had ended. */
  predicate Grown(before: seq<seq<Event>>, after: seq<seq<Event>>, n: nat) {
    && n <= |before| == |after|
    && (n > 0 ==>
          && Accepted(before[n - 1]) && before[n - 1] <= after[n - 1] && Accepted(after[n - 1])
          && (Replay(before[n - 1]).value.status.Ended? ==> after[n - 1] == before[n - 1])
          && Grown(before, after, n - 1))
  }

  /** So completed workflows stay completed. */
  lemma {:induction false} StillCompleted(before: seq<seq<Event>>, after: seq<seq<Event>>, n: nat, m: nat)
    requires Grown(before, after, m) && n <= m
    ensures FirstAccepted(after, n) && (FirstCompleted(before, n) ==> FirstCompleted(after, n))
    decreases m
  {
    if n < m {
      StillCompleted(before, after, n, m - 1);
    } else if n > 0 {
      StillCompleted(before, after, n - 1, m - 1);
    }
  }

  lemma {:induction false} GrownAt(before: seq<seq<Event>>, after: seq<seq<Event>>, n: nat, i: nat)
    requires Grown(before, after, n) && i < n
    ensures Accepted(before[i]) && (Replay(before[i]).value.status.Ended? ==> after[i] == before[i])
  {
    if i < n - 1 { GrownAt(before, after, n - 1, i); }
  }

  /** A workflow that ended without completing stays in the way. */
  lemma StillHeldUp(before: seq<seq<Event>>, after: seq<seq<Event>>)
    requires Grown(before, after, |before|) && HeldUp(before, true)
    ensures HeldUp(after, true)
  {
    var i: nat :| i < |before| && FirstCompleted(before, i) && HeldUpAt(before, i, true);
    StillCompleted(before, after, i, |before|);
    GrownAt(before, after, |before|, i);
    assert FirstCompleted(after, i) && HeldUpAt(after, i, true);
  }

  /** Completed, blocked for good and blocked for now exclude each other. */
  lemma HeldUpOnce(journals: seq<seq<Event>>)
    ensures HeldUp(journals, true) ==> !HeldUp(journals, false)
    ensures AllCompleted(journals) ==> !HeldUp(journals, true) && !HeldUp(journals, false)
  {
    forall i: nat, ended | i < |journals| && FirstCompleted(journals, i) && HeldUpAt(journals, i, ended)
      ensures forall n: nat :: i < n <= |journals| ==> !FirstCompleted(journals, n)
    {
      forall n: nat | i < n <= |journals| ensures !FirstCompleted(journals, n) { NotAllCompleted(journals, n, i); }
    }
    if HeldUp(journals, true) {
      var i: nat :| i < |journals| && FirstCompleted(journals, i) && HeldUpAt(journals, i, true);
      forall j: nat | j < |journals| && FirstCompleted(journals, j) && j != i ensures !HeldUpAt(journals, j, false) {
        if j < i && HeldUpAt(journals, j, false) { NotAllCompleted(journals, i, j); }
      }
    }
  }

  /** One journal grows by events that its acceptor takes. */
  lemma {:induction false} OneGrows(journals: seq<seq<Event>>, i: nat, more: seq<Event>, n: nat)
    requires FirstAccepted(journals, n) && i < |journals| && Accepted(journals[i]) && Accepted(journals[i] + more)
    ensures Grown(journals, journals[i := journals[i] + more], n)
  {
    if n > 0 {
      OneGrows(journals, i, more, n - 1);
      if i == n - 1 && Replay(journals[i]).value.status.Ended? { CompletedIsFinal(journals[i], more); }
    }
  }

  lemma {:induction false} NoneGrows(journals: seq<seq<Event>>, n: nat)
    requires FirstAccepted(journals, n)
    ensures Grown(journals, journals, n)
  {
    if n > 0 { NoneGrows(journals, n - 1); }
  }

  /** A workflow nobody has to run at the moment: finished, or waiting for somebody else. */
  predicate Settled(p: Projection) {
    p.status.Ended? || p.status == WaitingForDependency || p.status == WaitingForApproval
  }

  // ----- The events the service writes, one by one, are events the acceptor takes -----

  lemma CanInterrupt(p: Projection, reason: Reason)
    requires StateInvariant(p) && p.activeExecutionId.Some?
    ensures p.currentStage.Some? && p.currentStage.value.Worker?
    ensures var e := StageInterrupted(p.currentStage.value.stage, p.activeExecutionId.value, reason);
            Project(Some(p), e) == Some(p.(activeExecutionId := None, status := Pending))
  {
  }

  /** The verdict can be written in this state. */
  predicate Closable(p: Projection, v: Verdict) {
    && p.activeExecutionId.None? && !p.status.Ended?
    && ValidCode(v.failureCode) && v.status != PolicyViolation
    && (v.status == Completed <==> v.failureCode.None?)
    && (v.status == Completed ==>
          !p.approvalRequested && p.approvalDecision == Some(Approved) && p.candidateRunId.Some?)
  }

  function ClosingEvent(p: Projection, v: Verdict): Event {
    WorkflowCompleted(v.status, v.failureCode, p.candidateRunId)
  }

  function VerdictOf(e: Event): Verdict
    requires e.WorkflowCompleted?
  {
    Verdict(e.status, e.failureCode)
  }

  lemma CanClose(p: Projection, v: Verdict)
    requires Closable(p, v)
    ensures var q := Project(Some(p), ClosingEvent(p, v));
            q.Some? && q.value.status == Ended(v.status)
  {
  }

  lemma CanReport(p: Projection, ready: bool)
    requires p.definition.dependencyWorkflowIds != [] && p.activeExecutionId.None? && !p.approvalRequested
    requires p.status == if ready then WaitingForDependency else Pending
    ensures Project(Some(p), DependencyStateChanged(ready))
         == Some(p.(status := if ready then Pending else WaitingForDependency))
  {
  }

  lemma CanRequestApproval(p: Projection)
    requires StateInvariant(p) && p.currentStage == Some(Approval) && p.status != WaitingForApproval
    ensures p.candidateRunId.Some?
    ensures Project(Some(p), ApprovalRequested(p.candidateRunId.value))
         == Some(p.(approvalRequested := true, approvalDecision := None, status := WaitingForApproval))
  {
  }

  lemma CanDecide(p: Projection, decision: Decision, canRepair: bool)
    requires StateInvariant(p) && p.status == WaitingForApproval
    requires canRepair ==> decision == Rejected && p.definition.repair.Some?
                           && p.repairAttemptCount < p.definition.maxRepairAttempts
    ensures var e := ApprovalDecided(decision, if canRepair then Some(Worker(Repair)) else None);
            && Project(Some(p), e).Some?
            && Project(Some(p), e).value.candidateRunId == p.candidateRunId
  {
  }

  predicate Resumable(p: Projection) {
    p.currentStage.Some? && p.currentStage.value.Worker? && p.activeExecutionId.Some?
  }

  /** The running stage, put back. */
  function InterruptionOf(p: Projection, reason: Reason): Event
    requires Resumable(p)
  {
    StageInterrupted(p.currentStage.value.stage, p.activeExecutionId.value, reason)
  }

  function SourceFor(p: Projection, stage: StageName): Option<Id> {
    if stage == Plan || stage == Implement then None else p.candidateRunId
  }

  function StartOfStage(p: Projection, stage: StageName, executionId: Id): Event {
    StageStarted(stage, executionId, Count(p.stageAttempts, stage) + 1, SourceFor(p, stage))
  }

  /** Starting a stage stays within the validator's 64 attempts because attempts sum to transitions,
      and the repair limit is never in the way. */
  lemma CanStart(p: Projection, stage: StageName, executionId: Id)
    requires StateInvariant(p) && p.currentStage == Some(Worker(stage)) && p.activeExecutionId.None?
    requires p.transitionCount < p.definition.maxTransitions
    ensures StageOf(p.definition, stage).Some?
    ensures stage == Repair ==> p.repairAttemptCount < p.definition.maxRepairAttempts
    ensures var q := Project(Some(p), StartOfStage(p, stage, executionId));
            && q.Some?
            && q.value.transitionCount == p.transitionCount + 1
            && q.value.activeExecutionId == Some(executionId)
            && q.value.definition == p.definition
  {
    assert Count(p.stageAttempts, stage) <= p.transitionCount;
  }

  lemma StepKeepsDefinition(p: Projection, e: Event)
    requires Project(Some(p), e).Some?
    ensures Project(Some(p), e).value.definition == p.definition
    ensures p.transitionCount <= Project(Some(p), e).value.transitionCount
  {
  }

  lemma CompletionKeepsCount(p: Projection, e: Event)
    requires e.StageCompleted? && Project(Some(p), e).Some?
    ensures var q := Project(Some(p), e).value;
            && q.activeExecutionId.None? && q.status == Pending && q.currentStage == e.nextStage
            && q.transitionCount == p.transitionCount
  {
  }

  /** What the loop closes a result with is how the outcome its event fixed is closed. */
  lemma ClosesAsFixed(done: Event, result: StageResult)
    requires done.StageCompleted? && done.nextStage == result.nextStage
    requires done.status == result.status && done.failureCode == result.failureCode
    ensures FixedOutcome(done).Some? <==> result.nextStage.None?
    ensures forall aborted, expired :: result.nextStage.None? ==>
              LoopVerdict(result, aborted, expired) == Closing(FixedOutcome(done).value, aborted, expired)
  {
  }

  /** Only an approval fixes a completed outcome. */
  lemma FixedApproval(e: Event)
    requires FixedOutcome(e).Some? && FixedOutcome(e).value.status == Completed
    ensures e == ApprovalDecided(Approved, None)
  {
  }

  const TRANSITION_LIMIT := Verdict(Failed, Some("WORKFLOW_TRANSITION_LIMIT"))
  const HISTORY_MISMATCH := Verdict(Blocked, Some("WORKFLOW_RUN_HISTORY_MISMATCH"))
  const DEPENDENCY_FAILED := Verdict(Blocked, Some("WORKFLOW_DEPENDENCY_FAILED"))

  /** A worker stage is due, a transition is left for it, and the evidence it starts from holds. */
  ghost predicate Due(es: seq<Event>, stage: StageName, intact: set<Event>)
    requires Accepted(es)
  {
    var p := Replay(es).value;
    && p.currentStage == Some(Worker(stage)) && p.transitionCount < p.definition.maxTransitions
    && BranchHolds(es, stage, intact)
  }

  /** What may end a workflow that stands behind these events: a signal that is up, the outcome its last
      event fixed, evidence that does not hold, no transition left, or a failed dependency. */
  ghost predicate Warranted(es: seq<Event>, v: Verdict, intact: set<Event>, aborted: bool, expired: bool,
                            dependencies: seq<seq<Event>>)
  {
    && Accepted(es)
    && var p := Replay(es).value;
    || (v == CANCELLED && aborted)
    || (v == EXPIRED && expired)
    || (FixedOutcome(es[|es| - 1]) == Some(v)
        && (v.status == Completed ==> p.candidateRunId.Some? && EvidenceHolds(es, p.candidateRunId.value, intact)))
    || (v == INVALID && p.candidateRunId.Some? && !EvidenceHolds(es, p.candidateRunId.value, intact)
        && (p.currentStage == Some(Approval) || es[|es| - 1] == ApprovalDecided(Approved, None)))
    || (p.currentStage.Some? && p.currentStage.value.Worker? && p.activeExecutionId.None?
        && (|| (v == TRANSITION_LIMIT && p.transitionCount >= p.definition.maxTransitions)
            || (v == HISTORY_MISMATCH && !BranchHolds(es, p.currentStage.value.stage, intact))))
    || (v == DEPENDENCY_FAILED && !WorkBegan(es) && HeldUp(dependencies, true))
  }

  /** The workflow has been ended by its last event, and that was warranted. */
  ghost predicate EndedWith(es: seq<Event>, intact: set<Event>, aborted: bool, expired: bool, dependencies: seq<seq<Event>>) {
    && |es| >= 2 && es[|es| - 1].WorkflowCompleted?
    && Warranted(es[..|es| - 1], VerdictOf(es[|es| - 1]), intact, aborted, expired, dependencies)
  }

  lemma EndedBy(es: seq<Event>, p: Projection, v: Verdict, intact: set<Event>, aborted: bool, expired: bool,
                dependencies: seq<seq<Event>>)
    requires Warranted(es, v, intact, aborted, expired, dependencies)
    ensures EndedWith(es + [ClosingEvent(p, v)], intact, aborted, expired, dependencies)
  {
    var more := es + [ClosingEvent(p, v)];
    assert more[..|more| - 1] == es;
  }

  /** A run of the service over the journal of one workflow. Behind the first `since` events every
      completed stage is one that this service delegated; what comes back is any function of the journal
      that starts it. */
  class Service {
    const delegate: seq<Event> -> Outcome
    ghost const since: nat
    var events: seq<Event>
    /** What the journal replays to. */
    ghost var state: Projection
    var dependencies: seq<seq<Event>>
    var aborted: bool
    var expired: bool
    /** A write to the journal has failed. */
    ghost var failed: bool
    var nextId: nat

    ghost predicate Valid()
      reads this`events, this`state, this`dependencies, this`aborted, this`expired
    {
      && since <= |events| && Delegated(events, since, delegate, aborted, expired)
      && Disciplined(events) && Replay(events) == Some(state)
      && |dependencies| == |state.definition.dependencyWorkflowIds|
      && FirstAccepted(dependencies, |dependencies|)
      && (WorkBegan(events) ==> AllCompleted(dependencies))
    }

    ghost function State(): Projection
      reads this`state
    {
      state
    }

    /** No signal is up, and no write has failed. */
    ghost predicate Calm()
      reads this`aborted, this`expired, this`failed
    {
      !aborted && !expired && !failed
    }

    /** What has happened stays so: signals, failed writes, and the ends of other workflows. */
    twostate predicate Onwards()
      reads this`aborted, this`expired, this`failed, this`dependencies
    {
      && (old(aborted) ==> aborted) && (old(expired) ==> expired) && (old(failed) ==> failed)
      && (AllCompleted(old(dependencies)) ==> AllCompleted(dependencies))
      && (HeldUp(old(dependencies), true) ==> HeldUp(dependencies, true))
    }

    ghost predicate Explained(exit: Exit)
      reads this`events, this`aborted, this`expired
    {
      exit.Explains(events, delegate, aborted, expired)
    }

    /** The journal's last event leaves the outcome open. */
    ghost predicate Open()
      reads this`events
    {
      events != [] && FixedOutcome(events[|events| - 1]).None?
    }

    /** Errors are thrown for a reason, and leave the workflow unfinished unless a write failed. */
    ghost predicate Thrown(exit: Exit)
      reads this`events, this`state, this`aborted, this`expired, this`failed
    {
      && (exit == ThrewTimeout ==> Open() && (aborted || expired))
      && (exit == ThrewOther ==> aborted || failed)
      && (exit != Returned && !failed ==> !State().status.Ended?)
    }

    /** The workflow has been ended, with a warrant. */
    ghost predicate EndedRightly(intact: set<Event>)
      reads this`events, this`state, this`aborted, this`expired, this`dependencies
    {
      State().status.Ended? && EndedWith(events, intact, aborted, expired, dependencies)
    }

    /** The workflow has been closed with this verdict, and nothing else was written. */
    twostate predicate ClosedAs(v: Verdict, intact: set<Event>)
      reads this`events, this`state, this`aborted, this`expired, this`dependencies
    {
      && events == old(events) + [ClosingEvent(old(State()), v)] && State().status == Ended(v.status)
      && EndedRightly(intact)
    }

    /** create: a valid definition starts a journal the service can run. */
    constructor (definition: Definition, dependencyJournals: seq<seq<Event>>, answers: seq<Event> -> Outcome)
      requires ValidDefinition(definition)
      requires |dependencyJournals| == |definition.dependencyWorkflowIds|
      requires FirstAccepted(dependencyJournals, |dependencyJournals|)
      ensures Valid() && events == [WorkflowCreated(definition)]
      ensures Calm() && dependencies == dependencyJournals && delegate == answers && since == 1
    {
      events := [WorkflowCreated(definition)];
      state := ProjectCreated(definition);
      dependencies := dependencyJournals;
      aborted, expired, failed, nextId := false, false, false, 0;
      delegate, since := answers, 1;
      CreatedIsDisciplined(definition);
    }

    /** Signals may be raised, and stay so. */
    method Signal()
      requires Valid()
      modifies this`aborted, this`expired
      ensures Valid() && Onwards()
    {
      if * { aborted := true; }
      if * { expired := true; }
      DelegatedLater(events, since, delegate, old(aborted), old(expired), aborted, expired);
    }

    /** The environment moves on. Signals stay raised, and finished dependencies stay finished. */
    method Pass()
      requires Valid()
      modifies this`aborted, this`expired, this`dependencies
      ensures Valid() && Onwards()
      ensures Grown(old(dependencies), dependencies, |dependencies|)
    {
      Signal();
      var i: nat, more: seq<Event> := *, *;
      NoneGrows(dependencies, |dependencies|);
      if i < |dependencies| && Accepted(dependencies[i]) && Accepted(dependencies[i] + more) {
        OneGrows(dependencies, i, more, |dependencies|);
        dependencies := dependencies[i := dependencies[i] + more];
      }
      StillCompleted(old(dependencies), dependencies, |dependencies|, |dependencies|);
      if HeldUp(old(dependencies), true) { StillHeldUp(old(dependencies), dependencies); }
    }

    /** WorkflowJournal.append: the acceptor decides, then the write may still fail. A write that fails
        may have published its event. */
    method Append(e: Event) returns (r: AppendResult)
      requires Valid() && MayFollow(events, e)
      requires e.StageStarted? || e == DependencyStateChanged(true) ==> AllCompleted(dependencies)
      requires e.StageCompleted? ==> RecordedFor(events, e, delegate, aborted, expired)
      modifies this`events, this`state, this`failed
      ensures Onwards()
      ensures Valid() && r != Signalled && (r == IoFailure ==> failed)
      ensures r == Committed ==> events == old(events) + [e] && events[|events| - 1] == e
      ensures r == Refused ==> events == old(events) && State() == old(State())
      ensures events == old(events) || events == old(events) + [e]
      ensures r == Committed ==> Project(Some(old(State())), e) == Some(State())
      ensures r == Committed ==> State().definition == old(State()).definition
      ensures r == Refused <==> Project(Some(old(State())), e).None?
    {
      var refused := |events| >= MAX_EVENTS_PER_WORKFLOW || Project(Replay(events), e).None?;
      DisciplinedLength(events);
      if refused { return Refused; }
      if * {
        failed := true;
        return IoFailure;
      }
      ReplaySnoc(events, e);
      DelegatedSnoc(events, e, since, delegate, aborted, expired);
      DisciplinedSnoc(events, e);
      WorkBeganSnoc(events, e);
      StepKeepsDefinition(Replay(events).value, e);
      state := Project(Replay(events), e).value;
      events := events + [e];
      if * {
        failed := true;
        return IoFailure;
      }
      return Committed;
    }

    /** complete: close the workflow whatever the signals say. */
    method Complete(v: Verdict) returns (r: AppendResult)
      requires Valid() && Closable(State(), v) && MayFollow(events, ClosingEvent(State(), v))
      modifies this`events, this`state, this`failed
      ensures Onwards()
      ensures Valid() && (r == Committed || r == IoFailure) && (r == IoFailure ==> failed)
      ensures r == Committed ==> events == old(events) + [ClosingEvent(old(State()), v)]
      ensures r == Committed ==> State().status == Ended(v.status)
      ensures r == IoFailure ==> events == old(events) || events == old(events) + [ClosingEvent(old(State()), v)]
    {
      var p := Replay(events).value;
      CanClose(p, v);
      r := Append(ClosingEvent(p, v));
    }

    /** complete, for a verdict that has its warrant. */
    method Close(v: Verdict, ghost intact: set<Event>) returns (done: bool)
      requires Valid() && Closable(State(), v) && MayFollow(events, ClosingEvent(State(), v))
      requires Warranted(events, v, intact, aborted, expired, dependencies)
      modifies this`events, this`state, this`failed
      ensures Onwards()
      ensures Valid() && old(events) <= events && (!done ==> failed)
      ensures done ==> ClosedAs(v, intact)
    {
      EndedBy(events, State(), v, intact, aborted, expired, dependencies);
      var r := Complete(v);
      done := r == Committed;
    }

    /** completeBeforeDeadline: a raised signal or a passed deadline turns the verdict. */
    method CompleteBeforeDeadline(v: Verdict, ghost intact: set<Event>) returns (done: bool)
      requires Valid() && Closable(State(), v)
      requires Warranted(events, v, intact, aborted, expired, dependencies)
      requires MayFollow(events, ClosingEvent(State(), v))
      requires MayFollow(events, ClosingEvent(State(), CANCELLED))
      requires MayFollow(events, ClosingEvent(State(), EXPIRED))
      modifies this`events, this`state, this`failed, this`aborted, this`expired, this`dependencies
      ensures Valid() && old(events) <= events && (!done ==> failed)
      ensures Onwards()
      ensures done ==> ClosedAs(BeforeDeadline(v, aborted, expired), intact)
    {
      Pass();
      if expired || aborted {
        done := Close(if aborted then CANCELLED else EXPIRED, intact);
      } else {
        done := Close(v, intact);
      }
    }

    /** appendBeforeDeadline: a raised signal or a passed deadline keeps the event from being written. */
    method AppendWithSignal(e: Event) returns (r: AppendResult)
      requires Valid() && MayFollow(events, e)
      requires e.StageStarted? ==> AllCompleted(dependencies)
      requires !e.DependencyStateChanged?
      requires e.StageCompleted? ==> RecordedFor(events, e, delegate, aborted, expired)
      modifies this`events, this`state, this`failed, this`aborted, this`expired, this`dependencies
      ensures Valid()
      ensures Onwards()
      ensures r == Signalled <==> aborted || expired
      ensures r == IoFailure ==> failed
      ensures r == Committed ==> events == old(events) + [e] && events[|events| - 1] == e
      ensures r == Refused || r == Signalled ==> events == old(events) && State() == old(State())
      ensures events == old(events) || events == old(events) + [e]
      ensures r == Committed ==> Project(Some(old(State())), e) == Some(State())
      ensures r == Committed ==> State().definition == old(State()).definition
      ensures r == Refused ==> Project(Some(old(State())), e).None?
    {
      Pass();
      if aborted || expired { return Signalled; }
      r := Append(e);
    }

    /** append with the stage signal. The timer behind it may lag the clock: a passed deadline keeps the
        event from being written, or it does not. */
    method AppendStage(e: Event) returns (r: AppendResult)
      requires Valid() && MayFollow(events, e)
      requires e.StageStarted? ==> AllCompleted(dependencies)
      requires !e.DependencyStateChanged?
      requires e.StageCompleted? ==> RecordedFor(events, e, delegate, aborted, expired)
      modifies this`events, this`state, this`failed, this`aborted, this`expired, this`dependencies
      ensures Valid()
      ensures Onwards()
      ensures r == Signalled ==> aborted || expired
      ensures aborted ==> r == Signalled
      ensures r == IoFailure ==> failed
      ensures r == Committed ==> events == old(events) + [e] && events[|events| - 1] == e
      ensures r == Refused || r == Signalled ==> events == old(events) && State() == old(State())
      ensures events == old(events) || events == old(events) + [e]
      ensures r == Committed ==> Project(Some(old(State())), e) == Some(State())
      ensures r == Committed ==> State().definition == old(State()).definition
      ensures r == Refused ==> Project(Some(old(State())), e).None?
    {
      Pass();
      var lagging: bool := *;
      if aborted || (expired && !lagging) { return Signalled; }
      r := Append(e);
    }

    /** Close an open workflow for whichever signal was raised. */
    method CompleteSignalled(ghost intact: set<Event>) returns (exit: Exit)
      requires Valid() && Open() && State().activeExecutionId.None? && !State().status.Ended?
      requires aborted || expired
      modifies this`events, this`state, this`failed
      ensures Onwards()
      ensures Valid() && old(events) <= events
      ensures exit == Returned || (exit == ThrewOther && failed)
      ensures exit == Returned ==> ClosedAs(if aborted then CANCELLED else EXPIRED, intact)
    {
      var done := Close(if aborted then CANCELLED else EXPIRED, intact);
      exit := if done then Returned else ThrewOther;
    }

    /** Close an open workflow that cannot go on, unless a signal takes over. */
    method GiveUp(v: Verdict, ghost intact: set<Event>) returns (exit: Exit)
      requires Valid() && Open() && State().activeExecutionId.None? && !State().status.Ended?
      requires v in {TRANSITION_LIMIT, HISTORY_MISMATCH, DEPENDENCY_FAILED}
      requires Warranted(events, v, intact, aborted, expired, dependencies)
      modifies this`events, this`state, this`failed, this`aborted, this`expired, this`dependencies
      ensures Onwards()
      ensures Valid() && old(events) <= events
      ensures exit == Returned || (exit == ThrewOther && failed)
      ensures exit == Returned ==> ClosedAs(BeforeDeadline(v, aborted, expired), intact)
    {
      var done := CompleteBeforeDeadline(v, intact);
      exit := if done then Returned else ThrewOther;
    }

    // ----- Recovery -----

    /** The evidence of the candidate, for the stage reports that are `intact`. */
    ghost predicate Evidence(intact: set<Event>)
      reads this`events, this`state
    {
      State().candidateRunId.Some? && EvidenceHolds(events, State().candidateRunId.value, intact)
    }

    /** The candidate is up for approval, or has been approved, and nothing is running. */
    ghost predicate AtApproval()
      reads this`events, this`state
    {
      && State().activeExecutionId.None? && !State().status.Ended? && State().candidateRunId.Some? && events != []
      && (State().currentStage == Some(Approval) || events[|events| - 1] == ApprovalDecided(Approved, None))
      && (!Open() ==> events[|events| - 1] == ApprovalDecided(Approved, None))
    }

    /** Close the workflow on evidence that does not hold, unless a signal takes over. */
    method CloseInvalid(ghost intact: set<Event>) returns (done: bool, v: Verdict)
      requires Valid() && AtApproval() && (!aborted && !expired ==> !Evidence(intact))
      modifies this`events, this`state, this`failed, this`aborted, this`expired, this`dependencies
      ensures Valid() && old(events) <= events && (!done ==> failed)
      ensures Onwards()
      ensures v == BeforeDeadline(INVALID, aborted, expired)
      ensures done ==> ClosedAs(v, intact)
    {
      if aborted || expired {
        done := Close(if aborted then CANCELLED else EXPIRED, intact);
      } else {
        done := CompleteBeforeDeadline(INVALID, intact);
      }
      v := BeforeDeadline(INVALID, aborted, expired);
    }

    /** Close the workflow past its deadline, whether cancelled or not. */
    method CloseLate(ghost intact: set<Event>) returns (done: bool)
      requires Valid() && AtApproval() && expired
      modifies this`events, this`state, this`failed
      ensures Onwards()
      ensures Valid() && old(events) <= events && (!done ==> failed)
      ensures done ==> ClosedAs(EXPIRED, intact)
    {
      done := Close(EXPIRED, intact);
    }

    /** The scan, which a signal raised before it stops, and one raised in its midst may. */
    method ScanUnderSignal(intact: set<Event>) returns (ok: bool)
      requires Valid() && State().candidateRunId.Some?
      modifies this`aborted, this`expired, this`dependencies
      ensures Valid()
      ensures Onwards()
      ensures ok ==> Evidence(intact) && !old(aborted) && !old(expired)
      ensures !aborted && !expired ==> ok == Evidence(intact)
    {
      var stopped := aborted || expired;
      var found := ScanEvidence(events, Replay(events).value.candidateRunId.value, intact);
      Pass();
      var interrupted: bool := *;
      ok := found && !stopped && (!interrupted || (!aborted && !expired));
    }

    /** validateCandidateForApproval: true, or the workflow is closed with verdict `v` instead. The
        deadline is looked at first (`late`). A signal raised before the scan, or in its midst, ends it, and
        a cancel then goes before the deadline. The candidate is never missing where this is called. */
    method ValidateCandidate(intact: set<Event>) returns (ok: bool, done: bool, v: Verdict, ghost late: bool)
      requires Valid() && AtApproval()
      modifies this`events, this`state, this`failed, this`aborted, this`expired, this`dependencies
      ensures Valid() && old(events) <= events && (!ok && !done ==> failed)
      ensures Onwards()
      ensures old(expired) ==> late
      ensures late ==> expired
      ensures ok ==> events == old(events) && State() == old(State()) && old(Evidence(intact)) && !late && !old(aborted)
      ensures !ok ==> v == if late then EXPIRED else BeforeDeadline(INVALID, aborted, expired)
      ensures !ok && done ==> ClosedAs(v, intact)
      ensures aborted == old(aborted) && expired == old(expired) ==>
                && late == expired && ok == (old(Evidence(intact)) && !aborted && !expired)
    {
      Pass();
      ok, done, v, late := false, false, EXPIRED, expired;
      if expired {
        done := CloseLate(intact);
      } else {
        ok := ScanUnderSignal(intact);
        if !ok { done, v := CloseInvalid(intact); }
      }
    }

    /** Close a fixed outcome: cancellations and timeouts outright, others before the deadline. */
    method CloseFixed(fixed: Verdict, ghost intact: set<Event>) returns (done: bool, v: Verdict)
      requires Valid() && !Open() && FixedOutcome(events[|events| - 1]) == Some(fixed) && !State().status.Ended?
      requires fixed.status == Completed ==> Evidence(intact)
      modifies this`events, this`state, this`failed, this`aborted, this`expired, this`dependencies
      ensures Valid() && old(events) <= events && (!done ==> failed)
      ensures Onwards()
      ensures v == Closing(fixed, aborted, expired)
      ensures done ==> ClosedAs(v, intact)
    {
      FixedIsIdle(events);
      v := fixed;
      if v.status == Cancelled || v.status == TimedOut {
        done := Close(v, intact);
      } else {
        done := CompleteBeforeDeadline(v, intact);
        v := BeforeDeadline(v, aborted, expired);
      }
    }

    /** An approval found recorded: its candidate is validated again before the workflow completes. */
    method RecoverApproval(intact: set<Event>) returns (exit: Exit, v: Verdict)
      requires Valid() && events[|events| - 1] == ApprovalDecided(Approved, None) && !State().status.Ended?
      modifies this`events, this`state, this`failed, this`aborted, this`expired, this`dependencies
      ensures Valid() && old(events) <= events && (exit == Returned || (exit == ThrewOther && failed))
      ensures Onwards()
      ensures exit == Returned ==> ClosedAs(v, intact)
      ensures aborted == old(aborted) && expired == old(expired) ==>
                v == ApprovalVerdict(old(Evidence(intact)), aborted, expired)
    {
      FixedIsIdle(events);
      var ok, done;
      ghost var late;
      ok, done, v, late := ValidateCandidate(intact);
      if ok { done, v := CloseFixed(Verdict(Completed, None), intact); }
      exit := if done then Returned else ThrewOther;
    }

    /** recoverPendingTerminal: close an outcome that the last event fixed before a crash. */
    method RecoverPendingTerminal(intact: set<Event>) returns (handled: bool, exit: Exit, v: Verdict)
      requires Valid() && !State().status.Ended?
      modifies this`events, this`state, this`failed, this`aborted, this`expired, this`dependencies
      ensures Valid() && handled == !old(Open())
      ensures Onwards()
      ensures !handled ==>
                && events == old(events) && State() == old(State()) && dependencies == old(dependencies)
                && aborted == old(aborted) && expired == old(expired) && failed == old(failed)
      ensures handled ==> exit == Returned || (exit == ThrewOther && failed)
      ensures handled && exit == Returned ==> ClosedAs(v, intact)
      ensures old(events) <= events
      ensures handled && aborted == old(aborted) && expired == old(expired) ==>
                v == RecoveryVerdict(old(events)[|old(events)| - 1], old(Evidence(intact)), aborted, expired)
    {
      var last := events[|events| - 1];
      var fixed := FixedOutcome(last);
      if fixed.None? { return false, Returned, CANCELLED; }
      handled := true;
      if fixed.value.status == Completed {
        FixedApproval(last);
        exit, v := RecoverApproval(intact);
      } else {
        var done;
        done, v := CloseFixed(fixed.value, intact);
        exit := if done then Returned else ThrewOther;
      }
    }

    // ----- The run loop -----

    /** The loop's state between two rounds: nothing runs, nothing is fixed, no dependency is missing. */
    ghost predicate BetweenRounds()
      reads this`events, this`state, this`dependencies, this`aborted, this`expired
    {
      && Valid() && Open() && State().activeExecutionId.None? && !State().status.Ended?
      && AllCompleted(dependencies)
    }

    /** Where a run may come to rest: ended with a warrant, or waiting for an approval. */
    ghost predicate AtRest(intact: set<Event>)
      reads this`events, this`state, this`aborted, this`expired, this`dependencies
    {
      EndedRightly(intact) || State().status == WaitingForApproval
    }

    /** A worker stage is due, and nothing stands in the way of its start. */
    ghost predicate StageDue(intact: set<Event>)
      reads this`events, this`state
    {
      && Accepted(events) && State().currentStage.Some? && State().currentStage.value.Worker?
      && Due(events, State().currentStage.value.stage, intact)
    }

    /** The event that starts it. */
    ghost function NextStart(): Event
      reads this`state, this`nextId
      requires State().currentStage.Some? && State().currentStage.value.Worker?
    {
      StartOfStage(State(), State().currentStage.value.stage, nextId)
    }

    /** And it does not wait for a dependency. */
    ghost predicate Ready(intact: set<Event>)
      reads this`events, this`state, this`dependencies, this`aborted, this`expired
    {
      BetweenRounds() && State().status != WaitingForDependency && StageDue(intact)
    }

    /** One dependency of checkDependencies: `None` when it has completed. */
    method CheckDependency(i: nat) returns (d: Option<DependencyState>)
      requires Valid() && i < |dependencies| && FirstCompleted(dependencies, i)
      modifies this`aborted, this`expired, this`dependencies
      ensures Valid() && |dependencies| == |old(dependencies)|
      ensures Onwards()
      ensures d.None? ==> FirstCompleted(dependencies, i + 1)
      ensures d.Some? ==> d.value != AllReady
      ensures d.Some? && d.value.CheckThrew? ==> aborted || (expired && d.value.timeout)
      ensures d == Some(SomeWaiting) ==> HeldUp(dependencies, false)
      ensures d == Some(SomeFailed) ==> HeldUp(dependencies, true)
      ensures d == Some(SomeWaiting) || d == Some(SomeFailed) ==> !WorkBegan(events)
    {
      ghost var before := dependencies;
      Pass();
      StillCompleted(before, dependencies, i, |dependencies|);
      AcceptedAt(dependencies, |dependencies|, i);
      if aborted { return Some(CheckThrew(false)); }
      if expired { return Some(CheckThrew(true)); }
      var status := Replay(dependencies[i]).value.status;
      if status == Ended(Completed) { return None; }
      NotAllCompleted(dependencies, |dependencies|, i);
      assert FirstCompleted(dependencies, i) && HeldUpAt(dependencies, i, status.Ended?);
      return Some(if status.Ended? then SomeFailed else SomeWaiting);
    }

    /** checkDependencies: a workflow whose work began never sees an unfinished dependency again. */
    method CheckDependencies() returns (d: DependencyState)
      requires Valid()
      modifies this`aborted, this`expired, this`dependencies
      ensures Valid()
      ensures Onwards()
      ensures d == AllReady ==> AllCompleted(dependencies)
      ensures d.CheckThrew? ==> aborted || (expired && d.timeout)
      ensures d == SomeWaiting ==> HeldUp(dependencies, false)
      ensures d == SomeFailed ==> HeldUp(dependencies, true)
      ensures d == SomeWaiting || d == SomeFailed ==> |dependencies| > 0 && !WorkBegan(events)
    {
      for i := 0 to |dependencies|
        invariant Valid() && |dependencies| == |old(dependencies)|
        invariant Onwards()
        invariant FirstCompleted(dependencies, i)
      {
        var found := CheckDependency(i);
        if found.Some? { return found.value; }
      }
      return AllReady;
    }

    /** Ask for the approval of the candidate; `done` when the run ends here. */
    method RequestApproval(intact: set<Event>) returns (done: bool, exit: Exit)
      requires Valid() && Open() && State().currentStage == Some(Approval) && !State().status.Ended?
      requires State().status != WaitingForApproval
      modifies this`events, this`state, this`failed, this`aborted, this`expired, this`dependencies
      ensures Valid() && old(events) <= events
      ensures Onwards()
      ensures exit == Returned || (exit == ThrewOther && failed) || !done
      ensures done && exit == Returned ==> EndedRightly(intact)
      ensures !done ==>
                && Open() && State().status == WaitingForApproval && old(Evidence(intact))
                && State().activeExecutionId.None? && old(State()).candidateRunId.Some?
                && events == old(events) + [ApprovalRequested(old(State()).candidateRunId.value)]
      ensures Calm() ==> done == !old(Evidence(intact))
      ensures Calm() && done ==> ClosedAs(INVALID, intact)
    {
      AcceptedState(events);
      var p := Replay(events).value;
      CanRequestApproval(p);
      var ok, closed, _, _ := ValidateCandidate(intact);
      if !ok { return true, if closed then Returned else ThrewOther; }
      var r := AppendWithSignal(ApprovalRequested(p.candidateRunId.value));
      done, exit := r != Committed, ThrewOther;
      if r == Signalled { exit := CompleteSignalled(intact); }
    }

    /** The approval branch of the run loop. */
    method RunApproval(intact: set<Event>) returns (exit: Exit)
      requires Valid() && Open() && State().currentStage == Some(Approval) && !State().status.Ended?
      modifies this`events, this`state, this`failed, this`aborted, this`expired, this`dependencies
      ensures Valid() && old(events) <= events
      ensures Onwards()
      ensures exit == Returned || (exit == ThrewOther && failed)
      ensures exit == Returned ==> AtRest(intact)
      ensures Calm() && old(State()).status == WaitingForApproval ==> events == old(events)
      ensures Calm() && old(State()).status != WaitingForApproval && old(Evidence(intact)) ==>
                && old(State()).candidateRunId.Some?
                && events == old(events) + [ApprovalRequested(old(State()).candidateRunId.value)]
      ensures Calm() && old(State()).status != WaitingForApproval && !old(Evidence(intact)) ==> ClosedAs(INVALID, intact)
    {
      if Replay(events).value.status != WaitingForApproval {
        var done;
        done, exit := RequestApproval(intact);
        if done { return; }
      }
      AcceptedState(events);
      Pass();
      if aborted || expired {
        exit := CompleteSignalled(intact);
        return;
      }
      return Returned;
    }

    /** The delegation comes back, and what it came back with is turned into the stage's completion event. */
    method RecordStage(stage: StageName, executionId: Id, timeline: Projection, before: seq<Event>)
      returns (r: AppendResult, result: StageResult, refusal: Exit)
      requires Valid() && AllCompleted(dependencies)
      requires Accepted(before) && timeline == Replay(before).value
      requires events == before + [StartOfStage(timeline, stage, executionId)]
      modifies this`events, this`state, this`failed, this`aborted, this`expired, this`dependencies
      ensures Valid() && AllCompleted(dependencies) && Explained(refusal)
      ensures Onwards()
      ensures r == Refused ==> refusal.NotRecordable?
      ensures r == Signalled ==> aborted || expired
      ensures r == IoFailure ==> failed
      ensures r == Committed ==>
                && events == old(events) + [CompletionEvent(stage, executionId, result)]
                && (old(expired) ==> result.status == (if aborted then Cancelled else TimedOut) && result.nextStage.None?)
      ensures r == Refused || r == Signalled ==> events == old(events)
      ensures old(events) <= events
      ensures r == Committed ==>
                && State().activeExecutionId.None? && State().status == Pending
                && State().currentStage == result.nextStage
                && State().definition == old(State()).definition
                && State().transitionCount == old(State()).transitionCount
    {
      var outcome := delegate(events);
      Pass();
      var retries := RetryTransitionCount(before, stage);
      result := ComputeStageResult(timeline, retries, stage, outcome, aborted, expired);
      refusal := NotRecordable(timeline, retries, stage, outcome, aborted, expired);
      var done := CompletionEvent(stage, executionId, result);
      StageResultRefinesHistory(before, events[|before|], outcome, aborted, expired);
      ReplaySnoc(events, done);
      ghost var recordable := Accepted(events + [done]);
      assert recordable == Recordable(timeline, retries, stage, outcome, aborted, expired);
      IsRecordedFor(before, stage, executionId, aborted, expired);
      if expired { SignalEnds(timeline, retries, stage, executionId, outcome, aborted, expired); }
      r := AppendStage(done);
      if r == Committed { CompletionKeepsCount(old(State()), done); }
      if r != Refused { refusal := ThrewOther; }
    }

    /** The record is the one the delegation calls for. */
    lemma IsRecordedFor(before: seq<Event>, stage: StageName, executionId: Id, cancelled: bool, late: bool)
      requires Accepted(before)
      ensures var start := StartOfStage(Replay(before).value, stage, executionId);
              var done := RecordedEvent(Replay(before).value, RetryTransitionCount(before, stage), stage, executionId,
                                        delegate(before + [start]), cancelled, late);
              RecordedFor(before + [start], done, delegate, cancelled, late)
    {
      var es := before + [StartOfStage(Replay(before).value, stage, executionId)];
      assert es[..|es| - 1] == before;
    }

    /** Close the workflow on a stage result that names no next stage. */
    method CloseStage(result: StageResult, ghost intact: set<Event>) returns (exit: Exit)
      requires Valid() && result.nextStage.None?
      requires events[|events| - 1].StageCompleted? && events[|events| - 1].nextStage.None?
      requires events[|events| - 1].status == result.status && events[|events| - 1].failureCode == result.failureCode
      modifies this`events, this`state, this`failed, this`aborted, this`expired, this`dependencies
      ensures Valid() && old(events) <= events
      ensures Onwards()
      ensures exit == Returned || (exit == ThrewOther && failed)
      ensures exit == Returned ==>
                ClosedAs(LoopVerdict(result, aborted, expired), intact)
    {
      FixedIsIdle(events);
      var status, code := WorkflowTerminalStatus(result.status), OrStageFailed(result.failureCode);
      var done;
      if status == Cancelled || status == TimedOut {
        done := Close(Verdict(status, code), intact);
      } else {
        done := CompleteBeforeDeadline(Verdict(status, code), intact);
      }
      exit := if done then Returned else ThrewOther;
    }

    /** Behind a completion event: close the workflow if the event fixed its outcome, or go on. */
    method LeaveStage(result: StageResult, done: Event, ghost intact: set<Event>) returns (again: bool, exit: Exit)
      requires Valid() && AllCompleted(dependencies)
      requires events[|events| - 1] == done && done.StageCompleted? && done.nextStage == result.nextStage
      requires done.status == result.status && done.failureCode == result.failureCode
      requires State().activeExecutionId.None? && State().status == Pending && State().currentStage == result.nextStage
      modifies this`events, this`state, this`failed, this`aborted, this`expired, this`dependencies
      ensures Valid() && old(events) <= events && (exit == Returned || (exit == ThrewOther && failed))
      ensures Onwards()
      ensures again ==>
                && events == old(events) && result.nextStage.Some? && AllCompleted(dependencies) && exit == Returned
      ensures !again && exit == Returned ==>
                ClosedAs(if result.nextStage.None? then LoopVerdict(result, aborted, expired) else CANCELLED, intact)
      ensures Calm() ==> again == result.nextStage.Some?
    {
      again := false;
      if result.nextStage.None? {
        exit := CloseStage(result, intact);
      } else {
        Pass();
        if aborted {
          exit := CompleteSignalled(intact);
        } else {
          again, exit := true, Returned;
        }
      }
    }

    /** From the started stage to its completion event, and to the end of the run when it names no next stage. */
    method FinishStage(stage: StageName, executionId: Id, timeline: Projection, before: seq<Event>, ghost intact: set<Event>)
      returns (again: bool, exit: Exit)
      requires Valid() && AllCompleted(dependencies)
      requires Accepted(before) && timeline == Replay(before).value
      requires events == before + [StartOfStage(timeline, stage, executionId)]
      modifies this`events, this`state, this`failed, this`aborted, this`expired, this`dependencies
      ensures Valid() && old(events) <= events && Explained(exit)
      ensures Onwards()
      ensures again ==>
                && Open() && State().activeExecutionId.None? && !State().status.Ended?
                && State().currentStage.Some? && AllCompleted(dependencies)
                && State().definition == old(State()).definition
                && State().transitionCount >= old(State()).transitionCount
      ensures !again && exit == Returned ==> EndedRightly(intact)
      ensures Thrown(exit)
      ensures !again && exit == Returned && FixedOutcome(events[|old(events)|]).Some? ==>
                && |events| == |old(events)| + 2
                && events[|old(events)| + 1].WorkflowCompleted?
                && VerdictOf(events[|old(events)| + 1])
                   == Closing(FixedOutcome(events[|old(events)|]).value, aborted, expired)
    {
      var r, result, refusal := RecordStage(stage, executionId, timeline, before);
      again := false;
      match r {
        case Signalled => exit := ThrewTimeout;
        case Refused => exit := refusal;
        case IoFailure => exit := ThrewOther;
        case Committed =>
          var done := CompletionEvent(stage, executionId, result);
          ClosesAsFixed(done, result);
          again, exit := LeaveStage(result, done, intact);
      }
    }

    /** The start of the stage that is due, under an identifier never used. */
    method StartStage(stage: StageName) returns (r: AppendResult)
      requires BetweenRounds() && State().currentStage == Some(Worker(stage))
      requires State().transitionCount < State().definition.maxTransitions
      modifies this`events, this`state, this`failed, this`aborted, this`expired, this`dependencies, this`nextId
      ensures Valid() && AllCompleted(dependencies) && old(events) <= events && r != Refused && nextId == old(nextId) + 1
      ensures Onwards()
      ensures r == Signalled ==> (aborted || expired) && events == old(events) && State() == old(State())
      ensures r == IoFailure ==> failed
      ensures r == Committed ==>
                && events == old(events) + [old(NextStart())] && Open() && !State().status.Ended?
                && State().definition == old(State()).definition
                && State().transitionCount == old(State()).transitionCount + 1
    {
      var timeline, executionId := Replay(events).value, nextId;
      nextId := nextId + 1;
      AcceptedState(events);
      CanStart(timeline, stage, executionId);
      r := AppendStage(StartOfStage(timeline, stage, executionId));
    }

    /** The start of a stage, and what follows it. */
    method BeginStage(stage: StageName, ghost intact: set<Event>) returns (again: bool, exit: Exit)
      requires BetweenRounds() && State().currentStage == Some(Worker(stage))
      requires State().transitionCount < State().definition.maxTransitions
      modifies this`events, this`state, this`failed, this`aborted, this`expired, this`dependencies, this`nextId
      ensures Valid() && old(events) <= events && Explained(exit)
      ensures Onwards()
      ensures again ==>
                && BetweenRounds() && State().currentStage.Some? && State().definition == old(State()).definition
                && State().transitionCount > old(State()).transitionCount
      ensures !again && exit == Returned ==> EndedRightly(intact)
      ensures Thrown(exit)
      ensures Calm() ==> old(events) + [old(NextStart())] <= events
    {
      var timeline, before, executionId := Replay(events).value, events, nextId;
      var r := StartStage(stage);
      if r == Signalled { return false, ThrewTimeout; }
      if r != Committed { return false, ThrewOther; }
      again, exit := FinishStage(stage, executionId, timeline, before, intact);
    }

    /** validateBranchEvidence, under the stage signal: a signal that is up may end it. */
    method ValidateBranch(stage: StageName, intact: set<Event>) returns (ok: bool)
      requires Valid()
      modifies this`aborted, this`expired, this`dependencies
      ensures Valid() && Onwards()
      ensures ok ==> BranchHolds(events, stage, intact)
      ensures !aborted && !expired ==> ok == BranchHolds(events, stage, intact)
    {
      var holds := BranchHolds(events, stage, intact);
      Pass();
      var interrupted: bool := *;
      ok := holds && (!interrupted || (!aborted && !expired));
    }

    /** The stage branch of the run loop: `again` when the loop goes round. */
    method RunStage(stage: StageName, intact: set<Event>) returns (again: bool, exit: Exit)
      requires BetweenRounds() && State().currentStage == Some(Worker(stage))
      modifies this`events, this`state, this`failed, this`aborted, this`expired, this`dependencies, this`nextId
      ensures Valid() && old(events) <= events && Explained(exit)
      ensures Onwards()
      ensures again ==>
                && BetweenRounds() && State().currentStage.Some? && State().definition == old(State()).definition
                && State().transitionCount > old(State()).transitionCount
      ensures !again && exit == Returned ==> EndedRightly(intact)
      ensures Thrown(exit)
      ensures Calm() && old(StageDue(intact)) ==> old(events) + [old(NextStart())] <= events
      ensures Calm() && !old(StageDue(intact)) ==> !again && |events| == |old(events)| + 1
    {
      var timeline := Replay(events).value;
      again := false;
      if timeline.transitionCount >= timeline.definition.maxTransitions {
        exit := GiveUp(TRANSITION_LIMIT, intact);
        return;
      }
      var branchEvidence := ValidateBranch(stage, intact);
      if !branchEvidence {
        exit := EndBranch(stage, intact);
      } else {
        again, exit := BeginStage(stage, intact);
      }
    }

    /** Behind a branch whose evidence could not be validated. */
    method EndBranch(stage: StageName, ghost intact: set<Event>) returns (exit: Exit)
      requires Valid() && Open() && State().activeExecutionId.None? && !State().status.Ended?
      requires State().currentStage == Some(Worker(stage))
      requires !aborted && !expired ==> !BranchHolds(events, stage, intact)
      modifies this`events, this`state, this`failed, this`aborted, this`expired, this`dependencies
      ensures Onwards()
      ensures Valid() && old(events) <= events
      ensures exit == Returned || (exit == ThrewOther && failed)
      ensures exit == Returned ==> EndedRightly(intact) && |events| == |old(events)| + 1
    {
      Pass();
      if aborted || expired {
        exit := CompleteSignalled(intact);
      } else {
        exit := GiveUp(HISTORY_MISMATCH, intact);
      }
    }

    /** Put a stage that was running at a crash back to pending, naming why. */
    method Interrupt(reason: Reason) returns (done: bool)
      requires Valid() && State().activeExecutionId.Some?
      modifies this`events, this`state, this`failed
      ensures Onwards()
      ensures Valid() && old(events) <= events && (!done ==> failed)
      ensures done ==>
                && Resumable(old(State())) && events == old(events) + [InterruptionOf(old(State()), reason)]
                && State() == old(State()).(activeExecutionId := None, status := Pending)
    {
      AcceptedState(events);
      var p := Replay(events).value;
      CanInterrupt(p, reason);
      if !Open() { FixedIsIdle(events); }
      var r := Append(StageInterrupted(p.currentStage.value.stage, p.activeExecutionId.value, reason));
      done := r == Committed;
    }

    /** The report that the workflow waits for a dependency, once. */
    method ReportWaiting() returns (done: bool)
      requires Valid() && Open() && State().activeExecutionId.None? && !State().status.Ended?
      requires |dependencies| > 0 && !WorkBegan(events)
      modifies this`events, this`state, this`failed
      ensures Onwards()
      ensures Valid() && old(events) <= events && (!done ==> failed)
      ensures done ==>
                && Open() && State() == old(State()).(status := WaitingForDependency)
                && events == if old(State()).status == WaitingForDependency then old(events)
                             else old(events) + [DependencyStateChanged(false)]
    {
      NotBegun(events);
      var p := Replay(events).value;
      done := true;
      if p.status != WaitingForDependency {
        CanReport(p, false);
        var r := Append(DependencyStateChanged(false));
        done := r == Committed;
      }
    }

    /** A workflow with an unfinished dependency is left waiting, unless a signal closes it. */
    method WaitForDependencies(ghost intact: set<Event>) returns (exit: Exit)
      requires Valid() && Open() && State().activeExecutionId.None? && !State().status.Ended?
      requires |dependencies| > 0 && !WorkBegan(events)
      modifies this`events, this`state, this`failed, this`aborted, this`expired, this`dependencies
      ensures Onwards()
      ensures Valid() && old(events) <= events
      ensures exit == Returned || (exit == ThrewOther && failed)
      ensures exit == Returned ==> EndedRightly(intact) || State().status == WaitingForDependency
      ensures Calm() ==>
                events == if old(State()).status == WaitingForDependency then old(events)
                          else old(events) + [DependencyStateChanged(false)]
    {
      var reported := ReportWaiting();
      if !reported { return ThrewOther; }
      Pass();
      if aborted || expired {
        exit := CompleteSignalled(intact);
      } else {
        exit := Returned;
      }
    }

    /** The report that a waiting workflow may go on. */
    method ReportReady() returns (done: bool)
      requires Valid() && Open() && State().activeExecutionId.None? && !State().status.Ended? && AllCompleted(dependencies)
      modifies this`events, this`state, this`failed
      ensures Onwards()
      ensures Valid() && old(events) <= events && (!done ==> failed)
      ensures done ==>
                && Open() && State() == old(State()).(status := State().status) && !State().status.Ended?
                && events == if old(State()).status == WaitingForDependency then old(events) + [DependencyStateChanged(true)]
                             else old(events)
    {
      AcceptedState(events);
      var p := Replay(events).value;
      done := true;
      if p.status == WaitingForDependency {
        DependencyBlocksWork(events);
        CanReport(p, true);
        var r := Append(DependencyStateChanged(true));
        done := r == Committed;
      }
    }

    /** The dependency gate of runWithLease: `settled` when the run ends here. */
    method AwaitDependencies(ghost intact: set<Event>) returns (settled: bool, exit: Exit)
      requires Valid() && Open() && State().activeExecutionId.None? && !State().status.Ended?
      modifies this`events, this`state, this`failed, this`aborted, this`expired, this`dependencies
      ensures Onwards()
      ensures Valid() && old(events) <= events && !exit.NotRecordable?
      ensures settled && exit == Returned ==>
                EndedRightly(intact) || (State().status == WaitingForDependency && !old(AllCompleted(dependencies)))
      ensures settled ==> Thrown(exit)
      ensures !settled ==>
                && Open() && State().activeExecutionId.None? && !State().status.Ended?
                && AllCompleted(dependencies) && State().definition == old(State()).definition
                && events == (if old(State()).status == WaitingForDependency then old(events) + [DependencyStateChanged(true)]
                              else old(events))
                && State() == old(State()).(status := State().status)
      ensures Calm() && old(AllCompleted(dependencies)) ==> !settled
      ensures Calm() && old(HeldUp(dependencies, true)) ==>
                settled && ClosedAs(DEPENDENCY_FAILED, intact)
    {
      settled, exit := true, ThrewOther;
      var d := CheckDependencies();
      HeldUpOnce(dependencies);
      match d {
        case CheckThrew(timeout) =>
          exit := if timeout then ThrewTimeout else ThrewOther;
        case SomeWaiting =>
          exit := WaitForDependencies(intact);
        case SomeFailed =>
          exit := GiveUp(DEPENDENCY_FAILED, intact);
        case AllReady =>
          var released := ReportReady();
          settled := !released;
      }
    }

    /** One round of the loop. */
    method Round(intact: set<Event>) returns (again: bool, exit: Exit)
      requires BetweenRounds()
      modifies this`events, this`state, this`failed, this`aborted, this`expired, this`dependencies, this`nextId
      ensures Valid() && old(events) <= events && Explained(exit)
      ensures Onwards()
      ensures again ==>
                && BetweenRounds() && State().definition == old(State()).definition
                && State().transitionCount > old(State()).transitionCount
      ensures !again && exit == Returned ==> AtRest(intact)
      ensures Thrown(exit)
      ensures Calm() && old(StageDue(intact)) ==> old(events) + [old(NextStart())] <= events
    {
      again := false;
      Pass();
      if aborted || expired {
        exit := CompleteSignalled(intact);
        return;
      }
      again, exit := RunCurrent(intact);
    }

    /** The current stage: the approval, or a worker stage. */
    method RunCurrent(intact: set<Event>) returns (again: bool, exit: Exit)
      requires BetweenRounds()
      modifies this`events, this`state, this`failed, this`aborted, this`expired, this`dependencies, this`nextId
      ensures Valid() && old(events) <= events && Explained(exit)
      ensures Onwards()
      ensures again ==>
                && BetweenRounds() && State().definition == old(State()).definition
                && State().transitionCount > old(State()).transitionCount
      ensures !again && exit == Returned ==> AtRest(intact)
      ensures Thrown(exit)
      ensures Calm() && old(StageDue(intact)) ==> old(events) + [old(NextStart())] <= events
    {
      again := false;
      if Replay(events).value.currentStage.None? { OutcomePending(events); }
      var stage := Replay(events).value.currentStage.value;
      if stage.Approval? {
        exit := RunApproval(intact);
      } else {
        again, exit := RunStage(stage.stage, intact);
      }
    }

    /** The loop of runWithLease. It terminates because every round starts a stage. */
    method Loop(intact: set<Event>) returns (exit: Exit)
      requires BetweenRounds()
      modifies this`events, this`state, this`failed, this`aborted, this`expired, this`dependencies, this`nextId
      ensures Valid() && old(events) <= events && Explained(exit)
      ensures Onwards()
      ensures exit == Returned ==> AtRest(intact)
      ensures Thrown(exit)
      ensures Calm() && old(StageDue(intact)) ==> old(events) + [old(NextStart())] <= events
    {
      ghost var first := true;
      while true
        invariant BetweenRounds() && old(events) <= events && State().definition == old(State()).definition
        invariant Onwards()
        invariant first ==> events == old(events) && State() == old(State()) && nextId == old(nextId)
        invariant !first && Calm() && old(StageDue(intact)) ==> old(events) + [old(NextStart())] <= events
        decreases State().definition.maxTransitions - State().transitionCount
      {
        AcceptedState(events);
        var again;
        again, exit := Round(intact);
        first := false;
        if !again { return; }
      }
    }

    /** A stage found running is one a crash left running: put it back before anything else. */
    method InterruptActive() returns (idle: bool)
      requires Valid() && State().activeExecutionId.Some? && !State().status.Ended?
      modifies this`events, this`state, this`failed, this`aborted, this`expired, this`dependencies
      ensures Valid() && old(events) <= events
      ensures Onwards()
      ensures !idle ==> failed
      ensures idle ==>
                && Resumable(old(State()))
                && events == old(events) + [InterruptionOf(
                     old(State()), if aborted then Cancel else if expired then Deadline else Resume)]
                && State() == old(State()).(activeExecutionId := None, status := Pending)
    {
      Pass();
      idle := Interrupt(if aborted then Cancel else if expired then Deadline else Resume);
    }

    /** The part of runWithLease behind recovery: signals, dependencies, then the loop. */
    method RunOpen(intact: set<Event>) returns (exit: Exit)
      requires Valid() && Open() && State().activeExecutionId.None? && !State().status.Ended?
      modifies this`events, this`state, this`failed, this`aborted, this`expired, this`dependencies, this`nextId
      ensures Valid() && old(events) <= events && Explained(exit)
      ensures Onwards()
      ensures exit == Returned ==>
                AtRest(intact) || (State().status == WaitingForDependency && !old(AllCompleted(dependencies)))
      ensures Thrown(exit)
      ensures Calm() && old(HeldUp(dependencies, true)) ==>
                ClosedAs(DEPENDENCY_FAILED, intact)
      ensures old(aborted || expired) && exit == Returned ==> EndedRightly(intact)
      ensures Calm() && old(Ready(intact)) ==> old(events) + [old(NextStart())] <= events
    {
      Pass();
      if aborted || expired {
        exit := CompleteSignalled(intact);
        return;
      }
      exit := RunGated(intact);
    }

    /** The dependencies, then the loop. */
    method RunGated(intact: set<Event>) returns (exit: Exit)
      requires Valid() && Open() && State().activeExecutionId.None? && !State().status.Ended?
      modifies this`events, this`state, this`failed, this`aborted, this`expired, this`dependencies, this`nextId
      ensures Valid() && old(events) <= events && Explained(exit)
      ensures Onwards()
      ensures exit == Returned ==>
                AtRest(intact) || (State().status == WaitingForDependency && !old(AllCompleted(dependencies)))
      ensures Thrown(exit)
      ensures Calm() && old(HeldUp(dependencies, true)) ==> ClosedAs(DEPENDENCY_FAILED, intact)
      ensures Calm() && old(Ready(intact)) ==> old(events) + [old(NextStart())] <= events
    {
      var settled;
      settled, exit := AwaitDependencies(intact);
      if !settled { exit := Loop(intact); }
    }

    /** runWithLease, once nothing is running: a fixed outcome is closed, and an open one is worked on. */
    method RunIdle(intact: set<Event>) returns (exit: Exit)
      requires Valid() && State().activeExecutionId.None? && !State().status.Ended?
      modifies this`events, this`state, this`failed, this`aborted, this`expired, this`dependencies, this`nextId
      ensures Valid() && old(events) <= events && Explained(exit)
      ensures Onwards()
      ensures exit == Returned ==>
                AtRest(intact) || (State().status == WaitingForDependency && !old(AllCompleted(dependencies)))
      ensures Thrown(exit)
      ensures old(aborted || expired) && exit == Returned ==> State().status.Ended?
      ensures !old(Open()) && exit == Returned && aborted == old(aborted) && expired == old(expired) ==>
                ClosedAs(RecoveryVerdict(old(events)[|old(events)| - 1], old(Evidence(intact)), aborted, expired), intact)
      ensures Calm() && old(Ready(intact)) ==> old(events) + [old(NextStart())] <= events
    {
      var handled, recovered, _ := RecoverPendingTerminal(intact);
      if handled { return recovered; }
      exit := RunOpen(intact);
    }

    /** runWithLease, for a stage that a crash left running. */
    method ResumeStage(intact: set<Event>) returns (exit: Exit)
      requires Valid() && State().activeExecutionId.Some? && !State().status.Ended?
      modifies this`events, this`state, this`failed, this`aborted, this`expired, this`dependencies, this`nextId
      ensures Valid() && old(events) <= events && Explained(exit)
      ensures Onwards()
      ensures exit == Returned ==>
                AtRest(intact) || (State().status == WaitingForDependency && !old(AllCompleted(dependencies)))
      ensures Thrown(exit)
      ensures old(aborted || expired) && exit == Returned ==> State().status.Ended?
      ensures Calm() ==> Resumable(old(State())) && old(events) + [InterruptionOf(old(State()), Resume)] <= events
    {
      var idle := InterruptActive();
      if !idle { return ThrewOther; }
      exit := RunIdle(intact);
    }

    /** runWithLease: from wherever the journal stands to a workflow at rest, a thrown error, or the one
        event the acceptor refuses. An outcome fixed before a crash is closed with one event, a stage left
        running by a crash is put back, and without a signal and a failed write the stage that is due is
        started. */
    method RunWithLease(intact: set<Event>) returns (exit: Exit)
      requires Valid()
      modifies this`events, this`state, this`failed, this`aborted, this`expired, this`dependencies, this`nextId
      ensures Valid() && old(events) <= events && Explained(exit)
      ensures Onwards()
      ensures old(State()).status.Ended? ==> exit == Returned && events == old(events)
      ensures exit == Returned && !old(State()).status.Ended? ==>
                AtRest(intact) || (State().status == WaitingForDependency && !old(AllCompleted(dependencies)))
      ensures Thrown(exit)
      ensures old(aborted || expired) && exit == Returned ==> State().status.Ended?
      ensures !old(Open()) && !old(State()).status.Ended? && exit == Returned
              && aborted == old(aborted) && expired == old(expired) ==>
                ClosedAs(RecoveryVerdict(old(events)[|old(events)| - 1], old(Evidence(intact)), aborted, expired), intact)
      ensures Calm() && old(State()).activeExecutionId.Some? ==>
                Resumable(old(State())) && old(events) + [InterruptionOf(old(State()), Resume)] <= events
      ensures Calm() && old(Ready(intact)) ==> old(events) + [old(NextStart())] <= events
    {
      var p := Replay(events).value;
      if !Open() { FixedIsIdle(events); }
      if p.status.Ended? {
        exit := Returned;
      } else if p.activeExecutionId.Some? {
        exit := ResumeStage(intact);
      } else {
        exit := RunIdle(intact);
      }
    }

    /** Close an idle workflow for the signal that ended its run. */
    method CloseInterrupted(cancelled: bool, ghost intact: set<Event>) returns (exit: Exit)
      requires Valid() && State().activeExecutionId.None? && !State().status.Ended?
      requires cancelled || Open() || (events[|events| - 1].StageInterrupted? && events[|events| - 1].reason == Deadline)
      requires if cancelled then aborted else expired
      modifies this`events, this`state, this`failed
      ensures Onwards()
      ensures Valid() && old(events) <= events
      ensures exit == Returned || (exit == ThrewOther && failed)
      ensures exit == Returned ==>
                ClosedAs(if cancelled then CANCELLED else EXPIRED, intact)
    {
      var done := Close(if cancelled then CANCELLED else EXPIRED, intact);
      return if done then Returned else ThrewOther;
    }

    /** finalizeInterruptedRun: after a thrown abort or timeout, interrupt what runs and close. */
    method FinalizeInterruptedRun(cancelled: bool, ghost intact: set<Event>) returns (exit: Exit)
      requires Valid() && (cancelled || Open())
      requires if cancelled then aborted else expired
      modifies this`events, this`state, this`failed
      ensures Onwards()
      ensures Valid() && old(events) <= events
      ensures exit == Returned || (exit == ThrewOther && failed)
      ensures exit == Returned ==> State().status.Ended?
      ensures old(State()).status.Ended? ==> exit == Returned && events == old(events)
      ensures exit == Returned && !old(State()).status.Ended? ==>
                && EndedRightly(intact) && State().status == Ended(if cancelled then Cancelled else TimedOut)
                && (old(State()).activeExecutionId.Some? ==>
                      |events| == |old(events)| + 2 && events[|old(events)|].StageInterrupted?
                      && events[|old(events)|].reason == if cancelled then Cancel else Deadline)
    {
      AcceptedState(events);
      if Replay(events).value.status.Ended? { return Returned; }
      if Replay(events).value.activeExecutionId.Some? {
        var interrupted := Interrupt(if cancelled then Cancel else Deadline);
        if !interrupted { return ThrewOther; }
      }
      exit := CloseInterrupted(cancelled, intact);
    }

    /** run: runWithLease, and the two errors it turns into a finished workflow. Nothing else is thrown
        unless a write fails, and nothing ends the workflow without a warrant. */
    method Run(intact: set<Event>) returns (exit: Exit)
      requires Valid()
      modifies this`events, this`state, this`failed, this`aborted, this`expired, this`dependencies, this`nextId
      ensures Valid() && old(events) <= events && Explained(exit) && exit != ThrewTimeout
      ensures Onwards()
      ensures exit == ThrewOther ==> failed
      ensures exit.NotRecordable? ==> !aborted
      ensures exit == Returned ==> Settled(State())
      ensures old(State()).status.Ended? ==> exit == Returned && events == old(events)
      ensures exit == Returned && !failed && !old(State()).status.Ended? ==>
                AtRest(intact) || (State().status == WaitingForDependency && !old(AllCompleted(dependencies)))
      ensures old(aborted || expired) && exit == Returned ==> State().status.Ended?
      ensures Calm() && old(State()).activeExecutionId.Some? ==>
                Resumable(old(State())) && old(events) + [InterruptionOf(old(State()), Resume)] <= events
      ensures Calm() && old(Ready(intact)) ==> old(events) + [old(NextStart())] <= events
    {
      exit := RunWithLease(intact);
      if exit == Returned { return; }
      if aborted {
        exit := FinalizeInterruptedRun(true, intact);
      } else if exit == ThrewTimeout {
        exit := FinalizeInterruptedRun(false, intact);
      }
    }

    // ----- Approval -----

    /** Close the workflow on a decision that leads to no repair. */
    method CloseDecision(decision: Decision, ghost intact: set<Event>) returns (exit: ApproveExit)
      requires Valid() && events[|events| - 1] == ApprovalDecided(decision, None)
      requires decision == Approved ==> Evidence(intact)
      modifies this`events, this`state, this`failed, this`aborted, this`expired, this`dependencies
      ensures Onwards()
      ensures Valid() && old(events) <= events
      ensures exit == Decided || (exit == ApproveThrew && failed)
      ensures exit == Decided ==>
                ClosedAs(ApproveVerdict(decision, aborted, expired), intact)
    {
      FixedIsIdle(events);
      var done := CompleteBeforeDeadline(
        if decision == Approved then Verdict(Completed, None)
        else Verdict(Failed, Some("WORKFLOW_APPROVAL_REJECTED")), intact);
      exit := if done then Decided else ApproveThrew;
    }

    /** The record of a rejection that leads to a repair. */
    method RecordRepair() returns (r: AppendResult)
      requires Valid() && Open() && State().status == WaitingForApproval
      requires State().definition.repair.Some? && State().repairAttemptCount < State().definition.maxRepairAttempts
      modifies this`events, this`state, this`failed, this`aborted, this`expired, this`dependencies
      ensures Onwards()
      ensures Valid() && r != Refused && (r == Signalled ==> events == old(events) && State() == old(State()))
      ensures (r == Signalled <==> aborted || expired) && (r == IoFailure ==> failed)
      ensures old(events) <= events
      ensures r == Committed ==>
                && events == old(events) + [ApprovalDecided(Rejected, Some(Worker(Repair)))]
                && Open() && State().currentStage == Some(Worker(Repair))
                && State().candidateRunId == old(State()).candidateRunId
      ensures r == Committed || r == Signalled ==> State().activeExecutionId.None? && !State().status.Ended?
    {
      AcceptedState(events);
      CanDecide(Replay(events).value, Rejected, true);
      r := AppendWithSignal(ApprovalDecided(Rejected, Some(Worker(Repair))));
    }

    /** What any decision writes: a closing event alone, the decision closed by the next event with the approve
        verdict, or the rejection that leads to a repair, behind which a signal may close the workflow. */
    twostate predicate Decides(decision: Decision, intact: set<Event>)
      reads this`events, this`state, this`aborted, this`expired, this`dependencies
    {
      var repair := ApprovalDecided(Rejected, Some(Worker(Repair)));
      || ClosedAs(CANCELLED, intact) || ClosedAs(EXPIRED, intact) || ClosedAs(INVALID, intact)
      || events == old(events) + [ApprovalDecided(decision, None)]
                   + [ClosingEvent(old(State()), ApproveVerdict(decision, aborted, expired))]
      || (decision == Rejected && !aborted && !expired && events == old(events) + [repair])
      || (decision == Rejected
          && events == old(events) + [repair] + [ClosingEvent(old(State()), if aborted then CANCELLED else EXPIRED)])
    }

    /** Behind a recorded rejection that leads to a repair: a signal may close the workflow. */
    method LeaveToRepair(ghost intact: set<Event>) returns (exit: ApproveExit)
      requires Valid() && Open() && State().activeExecutionId.None? && !State().status.Ended?
      modifies this`events, this`state, this`failed, this`aborted, this`expired, this`dependencies
      ensures Onwards()
      ensures Valid() && old(events) <= events && (exit == Decided || (exit == ApproveThrew && failed))
      ensures exit == Decided ==>
                if aborted || expired then ClosedAs(if aborted then CANCELLED else EXPIRED, intact)
                else events == old(events) && State() == old(State())
    {
      Pass();
      if !aborted && !expired { return Decided; }
      var closed := CompleteSignalled(intact);
      return if closed == Returned then Decided else ApproveThrew;
    }

    /** A rejection that leads to a repair. */
    method DecideRepair(ghost intact: set<Event>) returns (exit: ApproveExit)
      requires Valid() && Open() && State().status == WaitingForApproval
      requires State().definition.repair.Some? && State().repairAttemptCount < State().definition.maxRepairAttempts
      modifies this`events, this`state, this`failed, this`aborted, this`expired, this`dependencies
      ensures Onwards()
      ensures Valid() && old(events) <= events && (exit == Decided || (exit == ApproveThrew && failed))
      ensures exit == Decided ==>
                || (EndedRightly(intact) && State().status != Ended(Completed))
                || (!State().status.Ended? && State().currentStage == Some(Worker(Repair)))
      ensures exit == Decided ==> Decides(Rejected, intact)
      ensures Calm() ==> events == old(events) + [ApprovalDecided(Rejected, Some(Worker(Repair)))]
    {
      var r := RecordRepair();
      if r == IoFailure { return ApproveThrew; }
      if r == Committed {
        exit := LeaveToRepair(intact);
        return;
      }
      var closed := CompleteSignalled(intact);
      return if closed == Returned then Decided else ApproveThrew;
    }

    /** The record of a decision that leads to no repair. */
    method RecordDecision(decision: Decision, ghost intact: set<Event>) returns (r: AppendResult)
      requires Valid() && Open() && State().status == WaitingForApproval
      requires decision == Approved ==> Evidence(intact)
      modifies this`events, this`state, this`failed, this`aborted, this`expired, this`dependencies
      ensures Onwards()
      ensures Valid() && r != Refused && (r == Signalled ==> events == old(events) && State() == old(State()))
      ensures (r == Signalled <==> aborted || expired) && (r == IoFailure ==> failed)
      ensures old(events) <= events
      ensures r == Committed ==>
                && events == old(events) + [ApprovalDecided(decision, None)]
                && State().candidateRunId == old(State()).candidateRunId
                && (decision == Approved ==> Evidence(intact))
      ensures r == Signalled ==> State().activeExecutionId.None? && !State().status.Ended?
    {
      AcceptedState(events);
      CanDecide(Replay(events).value, decision, false);
      if decision == Approved { EvidenceSnoc(events, ApprovalDecided(decision, None), State().candidateRunId.value, intact); }
      r := AppendWithSignal(ApprovalDecided(decision, None));
    }

    /** A decision that leads to no repair, and its closing. */
    method DecideFinally(decision: Decision, ghost intact: set<Event>) returns (exit: ApproveExit)
      requires Valid() && Open() && State().status == WaitingForApproval
      requires decision == Approved ==> Evidence(intact)
      modifies this`events, this`state, this`failed, this`aborted, this`expired, this`dependencies
      ensures Onwards()
      ensures Valid() && old(events) <= events && (exit == Decided || (exit == ApproveThrew && failed))
      ensures exit == Decided ==> EndedRightly(intact)
      ensures exit == Decided && State().status == Ended(Completed) ==> decision == Approved
      ensures exit == Decided ==> Decides(decision, intact)
      ensures Calm() ==>
                events == old(events) + [ApprovalDecided(decision, None)]
                          + [ClosingEvent(old(State()), ApproveVerdict(decision, false, false))]
    {
      var r := RecordDecision(decision, intact);
      if r == IoFailure { return ApproveThrew; }
      if r == Signalled {
        var closed := CompleteSignalled(intact);
        return if closed == Returned then Decided else ApproveThrew;
      }
      exit := CloseDecision(decision, intact);
    }

    /** A rejection of this workflow leads to a repair. */
    ghost predicate MayRepair()
      reads this`state
    {
      && State().definition.repair.Some? && State().repairAttemptCount < State().definition.maxRepairAttempts
      && State().transitionCount < State().definition.maxTransitions
    }

    /** What an undisturbed decision writes: invalid evidence blocks the workflow, an approval completes it, and
        a rejection leads to a repair if one is left, and fails it otherwise. */
    twostate predicate DecidedAs(decision: Decision, intact: set<Event>)
      reads this`events, this`state, this`aborted, this`expired, this`dependencies
    {
      if !old(Evidence(intact)) then ClosedAs(INVALID, intact)
      else if decision == Approved then
        events == old(events) + [ApprovalDecided(Approved, None)] + [ClosingEvent(old(State()), Verdict(Completed, None))]
      else if old(MayRepair()) then events == old(events) + [ApprovalDecided(Rejected, Some(Worker(Repair)))]
      else
        events == old(events) + [ApprovalDecided(Rejected, None)]
                  + [ClosingEvent(old(State()), Verdict(Failed, Some("WORKFLOW_APPROVAL_REJECTED")))]
    }

    /** The decision of a workflow whose evidence holds. */
    method Decide(decision: Decision, ghost intact: set<Event>) returns (exit: ApproveExit)
      requires Valid() && Open() && State().status == WaitingForApproval && Evidence(intact)
      modifies this`events, this`state, this`failed, this`aborted, this`expired, this`dependencies
      ensures Onwards()
      ensures Valid() && old(events) <= events && (exit == Decided || (exit == ApproveThrew && failed))
      ensures exit == Decided ==>
                EndedRightly(intact) || (decision == Rejected && !State().status.Ended? && State().currentStage == Some(Worker(Repair)))
      ensures exit == Decided && State().status == Ended(Completed) ==> decision == Approved
      ensures exit == Decided ==> Decides(decision, intact)
      ensures Calm() ==> DecidedAs(decision, intact)
    {
      var p := Replay(events).value;
      if && decision == Rejected
         && p.definition.repair.Some?
         && p.repairAttemptCount < p.definition.maxRepairAttempts
         && p.transitionCount < p.definition.maxTransitions
      {
        exit := DecideRepair(intact);
      } else {
        exit := DecideFinally(decision, intact);
      }
    }

    /** approve, for a workflow that waits: nothing completes but an approval backed by valid evidence. */
    method ApproveWaiting(decision: Decision, intact: set<Event>) returns (exit: ApproveExit)
      requires Valid() && Open() && State().status == WaitingForApproval && State().candidateRunId.Some?
      requires State().activeExecutionId.None? && State().currentStage == Some(Approval)
      modifies this`events, this`state, this`failed, this`aborted, this`expired, this`dependencies
      ensures Onwards()
      ensures Valid() && old(events) <= events && (exit == Decided || (exit == ApproveThrew && failed))
      ensures exit == Decided ==>
                EndedRightly(intact) || (decision == Rejected && !State().status.Ended? && State().currentStage == Some(Worker(Repair)))
      ensures exit == Decided && State().status == Ended(Completed) ==> decision == Approved && old(Evidence(intact))
      ensures exit == Decided ==> Decides(decision, intact)
      ensures Calm() ==> DecidedAs(decision, intact)
    {
      var ok, closed, _, _ := ValidateCandidate(intact);
      if !ok { return if closed then Decided else ApproveThrew; }
      exit := Decide(decision, intact);
    }

    /** approve: only a workflow waiting for approval is decided, and a decision that leads to no
        repair is closed at once. Nothing completes but an approval backed by valid evidence, and without a
        signal and a failed write that always does. */
    method Approve(decision: Decision, intact: set<Event>) returns (exit: ApproveExit)
      requires Valid()
      modifies this`events, this`state, this`failed, this`aborted, this`expired, this`dependencies
      ensures Onwards()
      ensures Valid() && old(events) <= events
      ensures exit == NotWaiting <==> old(State()).status != WaitingForApproval
      ensures exit == NotWaiting ==> events == old(events)
      ensures exit == ApproveThrew ==> failed
      ensures exit == Decided ==>
                EndedRightly(intact) || (decision == Rejected && !State().status.Ended? && State().currentStage == Some(Worker(Repair)))
      ensures exit == Decided && State().status == Ended(Completed) ==> decision == Approved && old(Evidence(intact))
      ensures exit == Decided ==> Decides(decision, intact)
      ensures exit == Decided && old(aborted || expired) ==> ClosedAs(if aborted then CANCELLED else EXPIRED, intact)
      ensures Calm() && exit == Decided ==> DecidedAs(decision, intact)
    {
      if Replay(events).value.status != WaitingForApproval { return NotWaiting; }
      AcceptedState(events);
      if !Open() { FixedIsIdle(events); }
      if aborted || expired {
        var closed := CompleteSignalled(intact);
        return if closed == Returned then Decided else ApproveThrew;
      }
      exit := ApproveWaiting(decision, intact);
    }

    /** cancel, when no run is active in this process: interrupt what a crash left running, and close. */
    method CancelWorkflow() returns (done: bool)
      requires Valid()
      modifies this`events, this`state, this`failed
      ensures Onwards()
      ensures Valid() && old(events) <= events && (!done ==> failed)
      ensures done ==> State().status.Ended?
      ensures done && !old(State()).status.Ended? ==>
                && State().status == Ended(Cancelled)
                && VerdictOf(events[|events| - 1]) == CANCELLED
                && |events| == |old(events)| + (if old(State()).activeExecutionId.Some? then 2 else 1)
      ensures old(State()).status.Ended? ==> done && events == old(events)
    {
      AcceptedState(events);
      if Replay(events).value.status.Ended? { return true; }
      if Replay(events).value.activeExecutionId.Some? {
        done := Interrupt(Cancel);
        if !done { return; }
      }
      var r := Complete(CANCELLED);
      done := r == Committed;
    }
  }
}
