/** What every accepted workflow history keeps: a state invariant of the projection, and
    bounds that tie the projection's counters to the events of the history. */
module WorkflowInvariants {
  import opened Domain
  import opened Wrappers
  import opened WorkflowModel

  // ----- The state invariant -----

  function TotalAttempts(m: map<StageName, nat>): nat {
    Count(m, Plan) + Count(m, Implement) + Count(m, Test) + Count(m, Review) + Count(m, Repair)
  }

  function RetryLimit(d: Definition, s: StageName): nat {
    if StageOf(d, s).Some? then StageOf(d, s).value.retryLimit else 0
  }

  /** The status tells exactly what the workflow is waiting for. */
  predicate StatusAgrees(p: Projection) {
    && (p.activeExecutionId.Some? <==> p.status == Running)
    && (p.activeExecutionId.Some? ==>
          p.currentStage.Some? && p.currentStage.value.Worker? && p.transitionCount > 0)
    && (p.approvalRequested <==> p.status == WaitingForApproval)
    && (p.approvalRequested ==> p.currentStage == Some(Approval))
    && (p.status == WaitingForDependency ==> p.definition.dependencyWorkflowIds != [])
    && (p.status.Ended? ==> p.currentStage.None? && p.status.outcome != PolicyViolation)
  }

  /** The current stage is configured, has the candidate it needs, and has repairs left. */
  predicate StageReady(p: Projection) {
    && (p.transitionCount == 0 ==>
          p.currentStage in {None, Some(Worker(Plan)), Some(Worker(Implement))})
    && match p.currentStage
    case None => p.approvalDecision == Some(Approved) ==> p.candidateRunId.Some?
    case Some(Approval) => p.candidateRunId.Some? && p.approvalDecision != Some(Approved)
    case Some(Worker(s)) =>
      && StageOf(p.definition, s).Some?
      && p.approvalDecision != Some(Approved)
      && (s == Plan || s == Implement ==> p.candidateRunId.None?)
      && (s == Test || s == Review || s == Repair ==> p.candidateRunId.Some?)
      && (s == Repair ==> p.repairAttemptCount < p.definition.maxRepairAttempts)
  }

  predicate WithinLimits(p: Projection) {
    && TotalAttempts(p.stageAttempts) == p.transitionCount <= p.definition.maxTransitions
    && p.repairAttemptCount <= p.definition.maxRepairAttempts
    && forall s: StageName :: Count(p.retryTransitions, s) <= RetryLimit(p.definition, s)
  }

  predicate StateInvariant(p: Projection) {
    ValidDefinition(p.definition) && StatusAgrees(p) && StageReady(p) && WithinLimits(p)
  }

  lemma StagePreserves(p: Projection, e: Event)
    requires StateInvariant(p) && e.StageCompleted? && Project(Some(p), e).Some?
    ensures StateInvariant(Project(Some(p), e).value)
  {
    var q := Project(Some(p), e).value;
    forall s: StageName ensures Count(q.retryTransitions, s) <= RetryLimit(q.definition, s) {
      assert Count(p.retryTransitions, s) <= RetryLimit(p.definition, s);
    }
  }

  lemma AttemptsGrow(m: map<StageName, nat>, s: StageName)
    ensures TotalAttempts(m[s := Count(m, s) + 1]) == TotalAttempts(m) + 1
  {
  }

  lemma StartPreserves(p: Projection, e: Event)
    requires StateInvariant(p) && e.StageStarted? && Project(Some(p), e).Some?
    ensures StateInvariant(Project(Some(p), e).value)
  {
    AttemptsGrow(p.stageAttempts, e.stage);
    assert Project(Some(p), e).value.retryTransitions == p.retryTransitions;
  }

  lemma OtherPreserves(p: Projection, e: Event)
    requires StateInvariant(p) && !e.StageStarted? && !e.StageCompleted? && Project(Some(p), e).Some?
    ensures StateInvariant(Project(Some(p), e).value)
  {
    assert Project(Some(p), e).value.retryTransitions == p.retryTransitions;
  }

  lemma StepPreserves(p: Projection, e: Event)
    requires StateInvariant(p) && Project(Some(p), e).Some?
    ensures StateInvariant(Project(Some(p), e).value)
  {
    match e
    case StageCompleted(_, _, _, _, _, _, _, _) => StagePreserves(p, e);
    case StageStarted(_, _, _, _) => StartPreserves(p, e);
    case _ => OtherPreserves(p, e);
  }

  /** Every accepted history ends in a state that meets the invariant. */
  lemma {:induction false} AcceptedState(es: seq<Event>)
    requires Accepted(es)
    ensures StateInvariant(Replay(es).value)
  {
    var before := es[..|es| - 1];
    if before != [] {
      AcceptedState(before);
      StepPreserves(Replay(before).value, es[|es| - 1]);
    }
  }

  // ----- Counting events -----

  /** The kinds of event that are counted. */
  datatype Kind =
    | AnyStart
    | AnyFinish
    | AnyRequest
    | AnyDecision
    | AnyClosing
    | AnyRepair
    | AnyWork
    | AnyReport
    | StartOf(s: StageName)
    | RetryOf(s: StageName)
  {
    predicate Has(e: Event) {
      match this
      case AnyStart => e.StageStarted?
      case AnyFinish => e.StageCompleted? || e.StageInterrupted?
      case AnyRequest => e.ApprovalRequested?
      case AnyDecision => e.ApprovalDecided?
      case AnyClosing => e.WorkflowCreated? || e.WorkflowCompleted?
      case AnyRepair => e.StageCompleted? && e.stage == Repair
      case AnyWork => !e.DependencyStateChanged?
      case AnyReport => e.DependencyStateChanged?
      case StartOf(s) => e.StageStarted? && e.stage == s
      case RetryOf(s) => e.StageCompleted? && e.stage == s && e.nextStage == Some(Worker(s))
    }
  }

  function Tally(es: seq<Event>, k: Kind): nat {
    if es == [] then 0
    else Tally(es[..|es| - 1], k) + (if k.Has(es[|es| - 1]) then 1 else 0)
  }

  lemma TallySnoc(es: seq<Event>, e: Event)
    ensures forall k: Kind :: Tally(es + [e], k) == Tally(es, k) + (if k.Has(e) then 1 else 0)
  {
    assert (es + [e])[..|es + [e]| - 1] == es;
  }

  /** retryTransitionCount of the service: completions that come back to their own stage. */
  function RetryTransitionCount(es: seq<Event>, s: StageName): nat {
    Tally(es, RetryOf(s))
  }

  lemma {:induction false} WorkEventsSplit(es: seq<Event>)
    ensures Tally(es, AnyWork) == Tally(es, AnyStart) + Tally(es, AnyFinish) + Tally(es, AnyRequest)
                                  + Tally(es, AnyDecision) + Tally(es, AnyClosing)
  {
    if es != [] { WorkEventsSplit(es[..|es| - 1]); }
  }

  /** Approval requests still open for this candidate: none before the request is made. */
  predicate BeforeApproval(p: Projection) {
    && p.currentStage.Some?
    && !p.approvalRequested
    && p.currentStage != Some(Worker(Repair))
  }

  /** How many events of each kind there are. */
  datatype Totals = Totals(starts: nat, finishes: nat, requests: nat, decisions: nat, closings: nat, repairs: nat)

  function TotalsOf(es: seq<Event>): Totals {
    Totals(Tally(es, AnyStart), Tally(es, AnyFinish), Tally(es, AnyRequest), Tally(es, AnyDecision),
           Tally(es, AnyClosing), Tally(es, AnyRepair))
  }

  /** One event more. */
  function Add(t: Totals, e: Event): Totals {
    match e
    case StageStarted(_, _, _, _) => t.(starts := t.starts + 1)
    case StageInterrupted(_, _, _) => t.(finishes := t.finishes + 1)
    case StageCompleted(_, _, _, _, _, _, _, _) =>
      t.(finishes := t.finishes + 1, repairs := if e.stage == Repair then t.repairs + 1 else t.repairs)
    case ApprovalRequested(_) => t.(requests := t.requests + 1)
    case ApprovalDecided(_, _) => t.(decisions := t.decisions + 1)
    case DependencyStateChanged(_) => t
    case _ => t.(closings := t.closings + 1)
  }

  lemma TotalsSnoc(es: seq<Event>, e: Event)
    ensures TotalsOf(es + [e]) == Add(TotalsOf(es), e)
  {
    TallySnoc(es, e);
  }

  /** What the numbers of the projection say about the events of the history. */
  predicate TotalsAgree(t: Totals, p: Projection) {
    && t.starts == p.transitionCount
    && t.starts == t.finishes + (if p.activeExecutionId.Some? then 1 else 0)
    && t.decisions <= t.requests
    && (BeforeApproval(p) ==> t.requests <= p.repairAttemptCount)
    && t.requests <= p.repairAttemptCount + 1
    && t.closings == (if p.status.Ended? then 2 else 1)
    && t.repairs == p.repairAttemptCount
    && (!p.status.Ended? ==> t.requests == t.decisions + (if p.approvalRequested then 1 else 0))
  }

  /** What its two maps say about them. */
  ghost predicate MapsAgree(es: seq<Event>, p: Projection) {
    && (forall s :: Count(p.stageAttempts, s) == Tally(es, StartOf(s)))
    && (forall s :: s != Repair ==> Count(p.retryTransitions, s) == RetryTransitionCount(es, s))
  }

  ghost predicate CountsAgree(es: seq<Event>, p: Projection) {
    TotalsAgree(TotalsOf(es), p) && MapsAgree(es, p)
  }

  lemma TotalsStep(t: Totals, p: Projection, e: Event)
    requires StateInvariant(p) && TotalsAgree(t, p) && Project(Some(p), e).Some?
    ensures TotalsAgree(Add(t, e), Project(Some(p), e).value)
  {
    if e.StageCompleted? {
      assert p.activeExecutionId.Some? && !p.approvalRequested;
    }
  }

  lemma AttemptsStep(p: Projection, e: Event, s: StageName)
    requires Project(Some(p), e).Some?
    ensures Count(Project(Some(p), e).value.stageAttempts, s) == Count(p.stageAttempts, s) + if StartOf(s).Has(e) then 1 else 0
  {
  }

  lemma RetriesStep(p: Projection, e: Event, s: StageName)
    requires Project(Some(p), e).Some? && s != Repair
    ensures Count(Project(Some(p), e).value.retryTransitions, s)
         == Count(p.retryTransitions, s) + if RetryOf(s).Has(e) then 1 else 0
  {
  }

  lemma MapsStep(es: seq<Event>, p: Projection, q: Projection, e: Event)
    requires MapsAgree(es, p) && Project(Some(p), e) == Some(q)
    ensures MapsAgree(es + [e], q)
  {
    TallySnoc(es, e);
    forall s ensures Count(q.stageAttempts, s) == Tally(es + [e], StartOf(s)) { AttemptsStep(p, e, s); }
    forall s | s != Repair ensures Count(q.retryTransitions, s) == RetryTransitionCount(es + [e], s) { RetriesStep(p, e, s); }
  }

  lemma CreatedCounts(e: Event)
    requires e.WorkflowCreated?
    ensures CountsAgree([e], ProjectCreated(e.definition))
  {
    TotalsSnoc([], e);
    TallySnoc([], e);
    assert [] + [e] == [e];
  }

  lemma CountsStep(es: seq<Event>, p: Projection, q: Projection, e: Event)
    requires StateInvariant(p) && CountsAgree(es, p) && Project(Some(p), e) == Some(q)
    ensures CountsAgree(es + [e], q)
  {
    TotalsSnoc(es, e);
    TotalsStep(TotalsOf(es), p, e);
    MapsStep(es, p, q, e);
  }

  lemma {:induction false} AcceptedCounts(es: seq<Event>)
    requires Accepted(es)
    ensures CountsAgree(es, Replay(es).value)
  {
    var before, e := es[..|es| - 1], es[|es| - 1];
    assert es == before + [e] && Replay(es) == Project(Replay(before), e);
    if before == [] {
      CreatedCounts(e);
      assert es == [e];
    } else {
      AcceptedCounts(before);
      AcceptedState(before);
      CountsStep(before, Replay(before).value, Replay(es).value, e);
    }
  }

  /** The retry counter the acceptor keeps and the one the service recounts from the events agree
      on every accepted history, for every stage but repair (whose counter the acceptor never moves). */
  lemma {:induction false} RetryCountersAgree(es: seq<Event>, s: StageName)
    requires Accepted(es) && s != Repair
    ensures Count(Replay(es).value.retryTransitions, s) == RetryTransitionCount(es, s)
    ensures RetryTransitionCount(es, s) <= RetryLimit(Replay(es).value.definition, s)
  {
    AcceptedCounts(es);
    AcceptedState(es);
  }

  /** The bounds of an accepted history: attempts sum to the transition count, every counter stays
      within its limit, and the events other than dependency reports number at most
      2 * maxTransitions + 2 * (maxRepairAttempts + 1) + 2, never more than 142. */
  lemma WorkflowBounds(es: seq<Event>)
    requires Accepted(es)
    ensures var p := Replay(es).value;
            var d := p.definition;
            && Tally(es, StartOf(Plan)) + Tally(es, StartOf(Implement)) + Tally(es, StartOf(Test))
               + Tally(es, StartOf(Review)) + Tally(es, StartOf(Repair)) == Tally(es, AnyStart) == p.transitionCount
            && p.transitionCount <= d.maxTransitions
            && Tally(es, AnyRepair) <= d.maxRepairAttempts
            && Tally(es, AnyRequest) <= d.maxRepairAttempts + 1
            && Tally(es, AnyWork) <= 2 * d.maxTransitions + 2 * (d.maxRepairAttempts + 1) + 2
            && Tally(es, AnyWork) <= 142
  {
    AcceptedCounts(es);
    AcceptedState(es);
    WorkEventsSplit(es);
    var p := Replay(es).value;
    assert Count(p.stageAttempts, Plan) == Tally(es, StartOf(Plan));
    assert Count(p.stageAttempts, Implement) == Tally(es, StartOf(Implement));
    assert Count(p.stageAttempts, Test) == Tally(es, StartOf(Test));
    assert Count(p.stageAttempts, Review) == Tally(es, StartOf(Review));
    assert Count(p.stageAttempts, Repair) == Tally(es, StartOf(Repair));
  }
}
