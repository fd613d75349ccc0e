/** Applying a delegated patch more than once (src/worker/service.ts, applyRun): which histories take the
    request, and one that takes no request any more though its patch was never applied. */
module TaskApplication {
  import opened Domain
  import opened Wrappers
  import opened TaskModel
  import opened TaskEvaluation
  import opened TaskAttempt
  import opened TaskPatchGate
  import opened TaskHistory
  import opened TaskService

  /** The record of an application takes nothing from the link between a report and its history. */
  lemma LinkedStays(es: seq<Event>, e: Event, r: Report)
    requires Linked(es, r) && IsPatchApplicationEvent(e)
    ensures Linked(es + [e], r)
  {
    FindsSnoc(es, e, r.runId);
    FindCompletedSnoc(es, e);
  }

  /** One application event, accepted. */
  lemma Records(es: seq<Event>, e: Event, r: Report)
    requires Accepted(es) && Linked(es, r) && IsPatchApplicationEvent(e) && Project(Replay(es), e).Some?
    ensures Accepted(es + [e]) && Linked(es + [e], r) && Replay(es + [e]) == Project(Replay(es), e)
  {
    ReplaySnoc(es, e);
    LinkedStays(es, e, r);
  }

  lemma Refuses(es: seq<Event>, r: Report)
    requires Accepted(es) && Replay(es).value.application !in {NotRequested, ApplicationRejected}
    ensures !Accepted(es + [PatchApplicationRequested(r.runId)])
  {
    ReplaySnoc(es, PatchApplicationRequested(r.runId));
  }

  /** Behind a recorded request the report is still linked, but no further request is accepted. */
  lemma RequestRefusesRequest(es: seq<Event>, r: Report)
    requires Accepted(es) && Linked(es, r) && HasPatch(r)
    requires Replay(es).value.application in {NotRequested, ApplicationRejected}
    ensures var asked := es + [PatchApplicationRequested(r.runId)];
            && Accepted(asked) && Linked(asked, r) && Requested(Replay(asked).value, r)
            && !Accepted(asked + [PatchApplicationRequested(r.runId)])
  {
    RequestOpens(es, r);
    Records(es, PatchApplicationRequested(r.runId), r);
    Refuses(es + [PatchApplicationRequested(r.runId)], r);
  }

  /** And so behind its approval, as long as nothing else is recorded. */
  lemma ApprovalRefusesRequest(es: seq<Event>, r: Report)
    requires Accepted(es) && Linked(es, r) && Requested(Replay(es).value, r)
    ensures var approved := es + [PatchApproved(r.runId)];
            && Accepted(approved) && Linked(approved, r) && !Accepted(approved + [PatchApplicationRequested(r.runId)])
  {
    Records(es, PatchApproved(r.runId), r);
    Refuses(es + [PatchApproved(r.runId)], r);
  }

  // ----- A concrete history of that kind -----

  const RUN: Id := 1
  const WORKER: WorkerId := "w"

  /** The evaluation of a completed run of one changed file, without commands or criteria. */
  function Input(): EvaluationInput {
    EvaluationInput(Completed, None, [], 1, 10, 0, 0, [], 100, 1_000, 0, 0)
  }

  function DeliveredReport(): Report {
    Report(RUN, WORKER, Completed, None, 1, Some(7), [Evaluate(Input())], DefaultPolicy)
  }

  function Evaluated(): Event {
    EvaluationEvent(RUN, DeliveredReport().results, DefaultPolicy)
  }

  lemma NothingFails(d: Dimension)
    ensures EvaluateDimension(d, Input()) in {Passed, NotApplicable}
  {
  }

  lemma OutcomePasses()
    ensures Evaluate(Input()).outcome == EvaluationPassed
  {
    var ids := DeterministicDimensions();
    forall i | 0 <= i < |ids| ensures EvaluateDimension(ids[i], Input()) in {Passed, NotApplicable} { NothingFails(ids[i]); }
  }

  lemma EvaluationPasses()
    ensures ValidData(Evaluated()) && Evaluated().evaluation == EvaluationPassed
  {
    DeterministicAgrees(RUN, Input(), DefaultPolicy);
    OutcomePasses();
    OneOutcome(Evaluate(Input()));
  }

  function Started(): seq<Event> {
    [TaskCreated] + [RouteSelected([WORKER], 1)] + [WorkerStarted(RUN, WORKER, 1)]
  }

  lemma StartedState()
    ensures Replay(Started()) == Some(Created().(
              route := Some(([WORKER], 1)), attemptCount := 1, latestRunId := Some(RUN), knownRunIds := {RUN},
              activeAttempt := Some(NewAttempt(RUN, WORKER, 1))))
    ensures Trail(Started(), RUN, WORKER, None, None)
  {
    var created, route := [TaskCreated], RouteSelected([WORKER], 1);
    assert Replay(created) == Some(Created());
    assert Bounded(WORKER, 64) && Bounded([WORKER][0], 64) && ValidData(route);
    ReplaySnoc(created, route);
    StartIsTaken(Replay(created + [route]).value, RUN, WORKER, 1);
    ReplaySnoc(created + [route], WorkerStarted(RUN, WORKER, 1));
    FreshTrail(created + [route], WorkerStarted(RUN, WORKER, 1));
    assert Created().knownRunIds + {RUN} == {RUN};
  }

  /** One event of the run. */
  lemma Goes(es: seq<Event>, e: Event, produced: Option<Event>)
    requires Accepted(es) && Running(Replay(es).value, RUN) && Trail(es, RUN, WORKER, produced, None)
    requires ValidData(e) && RunOf(e) == Some(RUN) && !e.AttemptCompleted? && !e.EvaluationCompleted?
    requires e.PatchProduced? ==> produced.None?
    requires ProjectAttempt(Replay(es).value.activeAttempt.value, e).Some?
    ensures Replay(es + [e]) ==
            Some(Replay(es).value.(activeAttempt := ProjectAttempt(Replay(es).value.activeAttempt.value, e)))
    ensures Trail(es + [e], RUN, WORKER, if e.PatchProduced? then Some(e) else produced, None)
  {
    AttemptTakes(Replay(es).value, RUN, e);
    ReplaySnoc(es, e);
    TrailSnoc(es, e, RUN, WORKER, produced, None);
  }

  const PRODUCED := PatchProduced(RUN, 7, 100, 1)

  function Answered(): seq<Event> {
    Started() + [ModelTurnCompleted(RUN, 1, true, 0)] + [WorkerCompleted(RUN, true, None)]
  }

  lemma AnsweredState()
    ensures Accepted(Answered()) && Running(Replay(Answered()).value, RUN) && Trail(Answered(), RUN, WORKER, None, None)
    ensures AfterWorker(Replay(Answered()).value.activeAttempt.value, true)
    ensures Replay(Answered()).value.activeAttempt.value.patch.None? && Replay(Answered()).value.application == NotRequested
  {
    StartedState();
    Goes(Started(), ModelTurnCompleted(RUN, 1, true, 0), None);
    Goes(Started() + [ModelTurnCompleted(RUN, 1, true, 0)], WorkerCompleted(RUN, true, None), None);
  }

  function Worked(): seq<Event> {
    Answered() + [PRODUCED] + [ValidationCompleted(RUN, ValidationSkipped, 0)]
  }

  lemma WorkedState()
    ensures Accepted(Worked()) && Running(Replay(Worked()).value, RUN) && Trail(Worked(), RUN, WORKER, Some(PRODUCED), None)
    ensures AfterValidation(Replay(Worked()).value.activeAttempt.value, true)
    ensures Replay(Worked()).value.application == NotRequested
  {
    AnsweredState();
    Goes(Answered(), PRODUCED, None);
    Goes(Answered() + [PRODUCED], ValidationCompleted(RUN, ValidationSkipped, 0), Some(PRODUCED));
  }

  /** A delegation that completed with a patch. */
  function Delegated(): seq<Event> {
    Worked() + [Evaluated()] + [AttemptCompleted(RUN, Completed, None)] + [TaskCompleted(Some(RUN), Completed)]
  }

  lemma EvaluatedState()
    ensures var es := Worked() + [Evaluated()];
            && Accepted(es) && Running(Replay(es).value, RUN)
            && Concluded(Replay(es).value.activeAttempt.value, Completed, None)
            && Replay(es).value.application == NotRequested
            && Trail(es, RUN, WORKER, Some(PRODUCED), Some(Evaluated()))
  {
    WorkedState();
    EvaluationPasses();
    AttemptTakes(Replay(Worked()).value, RUN, Evaluated());
    ReplaySnoc(Worked(), Evaluated());
    TrailSnoc(Worked(), Evaluated(), RUN, WORKER, Some(PRODUCED), None);
  }

  lemma EndedState()
    ensures var es := Worked() + [Evaluated()] + [AttemptCompleted(RUN, Completed, None)];
            && Accepted(es) && Tells(Replay(es).value, DeliveredReport())
            && Replay(es).value.application == NotRequested
            && Evidenced(es, DeliveredReport(), Some(AttemptCompleted(RUN, Completed, None)))
  {
    EvaluatedState();
    var es, end := Worked() + [Evaluated()], AttemptCompleted(RUN, Completed, None);
    AttemptEnds(Replay(es).value, RUN, Completed, None);
    ReplaySnoc(es, end);
    assert Evidenced(es, DeliveredReport(), None);
    EndFound(es, end);
  }

  lemma DelegatedIsLinked()
    ensures Accepted(Delegated()) && Linked(Delegated(), DeliveredReport())
    ensures Replay(Delegated()).value.application == NotRequested
  {
    EndedState();
    var es := Worked() + [Evaluated()] + [AttemptCompleted(RUN, Completed, None)];
    DeliveredByCompletion(es, DeliveredReport());
    ReplaySnoc(es, TaskCompleted(Some(RUN), Completed));
  }

  /** A linked history that ends in a request, with nothing applied: it accepts no further request. */
  lemma StuckRequest()
    ensures var es, r := Delegated() + [PatchApplicationRequested(RUN)], DeliveredReport();
            && Accepted(es) && Linked(es, r) && HasPatch(r) && r.changedFileCount > 0
            && (forall i :: 0 <= i < |es| ==> !es[i].PatchApplied?)
            && !Accepted(es + [PatchApplicationRequested(RUN)])
  {
    DelegatedIsLinked();
    RequestRefusesRequest(Delegated(), DeliveredReport());
    AcceptedHistory(Delegated() + [PatchApplicationRequested(RUN)]);
  }
}
