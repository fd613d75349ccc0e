/** The patch gate: what every accepted task history that applies a patch looks like. */
module TaskPatchGate {
  import opened Domain
  import opened Wrappers
  import opened TaskModel

  /** The kinds of evidence a run leaves. */
  datatype Evidence = OfWorker | OfPatch | OfValidation | OfEvaluation

  predicate Shows(e: Event, k: Evidence, run: Id) {
    match k
    case OfWorker => e.WorkerCompleted? && e.runId == run
    case OfPatch => e.PatchProduced? && e.runId == run
    case OfValidation => e.ValidationCompleted? && e.runId == run
    case OfEvaluation => e.EvaluationCompleted? && e.runId == run
  }

  predicate Seen(es: seq<Event>, k: Evidence, run: Id) {
    exists i :: 0 <= i < |es| && Shows(es[i], k, run)
  }

  predicate Claims(a: Attempt, k: Evidence) {
    match k
    case OfWorker => a.workerOutcome.Some?
    case OfPatch => a.patch.Some?
    case OfValidation => a.validation.Some?
    case OfEvaluation => a.evaluation.Some?
  }

  /** What an attempt projection says, its run's events said, and the other way round. */
  ghost predicate Recorded(es: seq<Event>, a: Attempt) {
    && (forall i :: 0 <= i < |es| && RunOf(es[i]) == Some(a.runId) ==> Matches(es[i], a))
    && (forall k: Evidence :: Claims(a, k) ==> Seen(es, k, a.runId))
  }

  predicate Matches(e: Event, a: Attempt) {
    match e
    case WorkerCompleted(_, succeeded, _) => a.workerOutcome == Some(succeeded)
    case PatchProduced(_, sha, _, files) => a.patch == Some((sha, files))
    case ValidationCompleted(_, outcome, _) => a.validation == Some(outcome)
    case EvaluationCompleted(_, _, outcome, policy, _, _) => a.evaluation == Some((outcome, policy))
    case AttemptCompleted(_, status, code) => a.status == Some(status) && a.failureCode == code
    case _ => true
  }

  /** A completed attempt had a successful worker and nothing failed. */
  predicate EndedWell(a: Attempt) {
    && a.status.Some?
    && a.validation.Some?
    && a.evaluation.Some?
    && (a.status == Some(Completed) ==>
          && a.workerOutcome == Some(true)
          && a.validation != Some(ValidationFailed)
          && a.evaluation.value.0 != EvaluationFailed
          && (a.evaluation.value.1 == StrictPolicy ==> a.evaluation.value.0 == EvaluationPassed)
          && a.failureCode.None?)
  }

  predicate RunsKnown(es: seq<Event>, p: Projection) {
    forall i :: 0 <= i < |es| && RunOf(es[i]).Some? ==> RunOf(es[i]).value in p.knownRunIds
  }

  ghost predicate AttemptsKnown(es: seq<Event>, p: Projection) {
    && RunsKnown(es, p)
    && (p.activeAttempt.Some? ==>
          && p.status.None?
          && p.activeAttempt.value.runId in p.knownRunIds
          && p.activeAttempt.value.status.None?
          && Recorded(es, p.activeAttempt.value))
    && (p.lastAttempt.Some? ==>
          && p.lastAttempt.value.runId in p.knownRunIds
          && EndedWell(p.lastAttempt.value)
          && Recorded(es, p.lastAttempt.value))
    && (p.activeAttempt.Some? && p.lastAttempt.Some? ==>
          p.activeAttempt.value.runId != p.lastAttempt.value.runId)
  }

  /** Position t ends the task right behind the attempt it reports, and only patch applications follow. */
  predicate EndsAt(es: seq<Event>, t: nat, p: Projection) {
    && 0 < t < |es|
    && p.status.Some?
    && es[t] == TaskCompleted(if p.lastAttempt.Some? then Some(p.lastAttempt.value.runId) else None, p.status.value)
    && (p.lastAttempt.Some? ==>
          es[t - 1] == AttemptCompleted(p.lastAttempt.value.runId, p.status.value, p.lastAttempt.value.failureCode))
    && (forall i :: t < i < |es| ==> IsPatchApplicationEvent(es[i]))
  }

  ghost predicate EndKnown(es: seq<Event>, p: Projection) {
    && (p.status.Some? ==> exists t :: EndsAt(es, t, p))
    && (p.status.None? ==> p.application == NotRequested && forall i :: 0 <= i < |es| ==> !IsPatchApplicationEvent(es[i]))
    && (p.status.None? && p.activeAttempt.None? && p.lastAttempt.Some? ==>
          var a := p.lastAttempt.value;
          0 < |es| && a.status.Some? && es[|es| - 1] == AttemptCompleted(a.runId, a.status.value, a.failureCode))
  }

  /** An open application is the end of the history: requested, then approved, then applied. */
  predicate ApplicationKnown(es: seq<Event>, p: Projection) {
    var n := |es|;
    && (p.application in {ApplicationPending, ApplicationApproved, Applied} ==>
          p.applicationRunId.Some? && Applicable(p, p.applicationRunId.value))
    && (p.application == ApplicationPending ==>
          n >= 1 && es[n - 1] == PatchApplicationRequested(p.applicationRunId.value))
    && (p.application == ApplicationApproved ==>
          && n >= 2 && es[n - 1] == PatchApproved(p.applicationRunId.value)
          && es[n - 2] == PatchApplicationRequested(p.applicationRunId.value))
    && (p.application == Applied ==>
          && n >= 3 && es[n - 1].PatchApplied? && es[n - 1].runId == p.applicationRunId.value
          && es[n - 1].changedFileCount == p.lastAttempt.value.patch.value.1
          && es[n - 2] == PatchApproved(p.applicationRunId.value)
          && es[n - 3] == PatchApplicationRequested(p.applicationRunId.value))
    && (forall i :: 0 <= i < n && es[i].PatchApplied? ==> p.application == Applied && i == n - 1)
  }

  lemma SeenGrows(es: seq<Event>, e: Event, k: Evidence, run: Id)
    ensures Seen(es + [e], k, run) <==> Seen(es, k, run) || Shows(e, k, run)
  {
    var more := es + [e];
    assert more[|es|] == e;
    if Seen(es, k, run) {
      var i :| 0 <= i < |es| && Shows(es[i], k, run);
      assert more[i] == es[i];
    }
  }

  lemma RecordedGrows(es: seq<Event>, a: Attempt, e: Event)
    requires Recorded(es, a) && RunOf(e) != Some(a.runId)
    ensures Recorded(es + [e], a)
  {
    forall k: Evidence | Claims(a, k) ensures Seen(es + [e], k, a.runId) { SeenGrows(es, e, k, a.runId); }
  }

  /** What an earlier event said of the attempt stays true, */
  lemma MatchesStill(a: Attempt, e: Event, before: Event)
    requires Matches(before, a) && a.status.None? && ProjectAttempt(a, e).Some?
    ensures Matches(before, ProjectAttempt(a, e).value)
  {
  }

  /** and what the event itself says becomes true. */
  lemma MatchesNow(a: Attempt, e: Event)
    requires ProjectAttempt(a, e).Some?
    ensures Matches(e, ProjectAttempt(a, e).value)
  {
  }

  /** Nothing is claimed that the event does not show. */
  lemma ClaimsMore(a: Attempt, e: Event, k: Evidence)
    requires RunOf(e) == Some(a.runId) && ProjectAttempt(a, e).Some?
    ensures Claims(ProjectAttempt(a, e).value, k) ==> Claims(a, k) || Shows(e, k, a.runId)
    ensures ProjectAttempt(a, e).value.runId == a.runId
  {
  }

  lemma StepEnds(a: Attempt, e: Event)
    requires a.status.None? && ProjectAttempt(a, e).Some?
    ensures e.AttemptCompleted? ==> EndedWell(ProjectAttempt(a, e).value)
    ensures !e.AttemptCompleted? ==> ProjectAttempt(a, e).value.status.None?
  {
  }

  /** An event of the running attempt moves its projection and keeps it true to the events. */
  lemma RecordedStep(es: seq<Event>, a: Attempt, b: Attempt, e: Event)
    requires Recorded(es, a) && a.status.None? && RunOf(e) == Some(a.runId) && ProjectAttempt(a, e) == Some(b)
    ensures Recorded(es + [e], b) && b.runId == a.runId
  {
    var more := es + [e];
    forall i | 0 <= i < |more| && RunOf(more[i]) == Some(b.runId) ensures Matches(more[i], b) {
      ClaimsMore(a, e, OfWorker);
      if i < |es| { MatchesStill(a, e, es[i]); } else { MatchesNow(a, e); }
    }
    forall k: Evidence | Claims(b, k) ensures Seen(more, k, b.runId) {
      ClaimsMore(a, e, k);
      SeenGrows(es, e, k, a.runId);
    }
  }

  lemma StartRecords(es: seq<Event>, e: Event)
    requires e.WorkerStarted?
    requires forall i :: 0 <= i < |es| ==> RunOf(es[i]) != Some(e.runId)
    ensures Recorded(es + [e], NewAttempt(e.runId, e.workerId, e.attemptNumber))
  {
  }

  /** An event that belongs to no run, or starts one. */
  lemma OutsideStep(es: seq<Event>, p: Projection, e: Event)
    requires AttemptsKnown(es, p) && Project(Some(p), e).Some? && RunOf(e).None?
    ensures AttemptsKnown(es + [e], Project(Some(p), e).value)
  {
    if p.lastAttempt.Some? { RecordedGrows(es, p.lastAttempt.value, e); }
    if e.WorkerStarted? {
      StartRecords(es, e);
    } else if p.activeAttempt.Some? {
      RecordedGrows(es, p.activeAttempt.value, e);
    }
  }

  /** An event of the running attempt. */
  lemma InsideStep(es: seq<Event>, p: Projection, e: Event)
    requires AttemptsKnown(es, p) && Project(Some(p), e).Some? && RunOf(e).Some?
    ensures AttemptsKnown(es + [e], Project(Some(p), e).value)
  {
    var a := p.activeAttempt.value;
    if p.lastAttempt.Some? { RecordedGrows(es, p.lastAttempt.value, e); }
    RecordedStep(es, a, ProjectAttempt(a, e).value, e);
    StepEnds(a, e);
  }

  lemma AttemptsStep(es: seq<Event>, p: Projection, e: Event)
    requires AttemptsKnown(es, p) && Project(Some(p), e).Some?
    ensures AttemptsKnown(es + [e], Project(Some(p), e).value)
  {
    if RunOf(e).Some? {
      InsideStep(es, p, e);
    } else {
      OutsideStep(es, p, e);
    }
  }

  lemma EndingStep(es: seq<Event>, p: Projection, e: Event)
    requires es != [] && AttemptsKnown(es, p) && EndKnown(es, p) && Project(Some(p), e).Some?
    requires e.TaskCompleted?
    ensures EndsAt(es + [e], |es|, Project(Some(p), e).value)
  {
    assert (es + [e])[|es| - 1] == es[|es| - 1];
  }

  lemma EndedStep(es: seq<Event>, p: Projection, e: Event)
    requires EndKnown(es, p) && p.status.Some? && Project(Some(p), e).Some?
    ensures EndKnown(es + [e], Project(Some(p), e).value)
  {
    var more := es + [e];
    assert forall i :: 0 <= i < |es| ==> more[i] == es[i];
    var t: nat :| EndsAt(es, t, p);
    assert EndsAt(more, t, Project(Some(p), e).value);
  }

  lemma EndStep(es: seq<Event>, p: Projection, e: Event)
    requires es != [] && AttemptsKnown(es, p) && EndKnown(es, p) && Project(Some(p), e).Some?
    ensures EndKnown(es + [e], Project(Some(p), e).value)
  {
    if p.status.Some? {
      EndedStep(es, p, e);
    } else if e.TaskCompleted? {
      EndingStep(es, p, e);
    } else {
      assert !IsPatchApplicationEvent(e);
      assert forall i :: 0 <= i < |es| ==> (es + [e])[i] == es[i];
    }
  }

  lemma ApplicationStep(es: seq<Event>, p: Projection, e: Event)
    requires es != [] && EndKnown(es, p) && ApplicationKnown(es, p) && Project(Some(p), e).Some?
    ensures ApplicationKnown(es + [e], Project(Some(p), e).value)
  {
    var more := es + [e];
    assert more[|es|] == e;
    assert forall i :: 0 <= i < |es| ==> more[i] == es[i];
  }

  lemma {:induction false} AcceptedHistory(es: seq<Event>)
    requires Accepted(es)
    ensures AttemptsKnown(es, Replay(es).value)
    ensures EndKnown(es, Replay(es).value)
    ensures ApplicationKnown(es, Replay(es).value)
  {
    var before, e := es[..|es| - 1], es[|es| - 1];
    if before != [] {
      AcceptedHistory(before);
      var p := Replay(before).value;
      AttemptsStep(before, p, e);
      EndStep(before, p, e);
      ApplicationStep(before, p, e);
      assert es == before + [e];
    } else {
      assert es == [TaskCreated];
    }
  }

  /** The run has left every kind of evidence before position t. */
  predicate Witnessed(es: seq<Event>, run: Id, changedFileCount: nat, t: nat) {
    && t <= |es|
    && (exists i :: 0 <= i < t && es[i] == WorkerCompleted(run, true, None))
    && (exists i :: 0 <= i < t && es[i].PatchProduced? && es[i].runId == run
                    && es[i].changedFileCount == changedFileCount)
    && (exists i :: 0 <= i < t && es[i].ValidationCompleted? && es[i].runId == run)
    && (exists i :: 0 <= i < t && es[i].EvaluationCompleted? && es[i].runId == run)
  }

  /** None of the run's evidence speaks against it. */
  predicate NothingFailed(es: seq<Event>, run: Id) {
    && (forall i :: 0 <= i < |es| && es[i].WorkerCompleted? && es[i].runId == run ==> es[i].succeeded)
    && (forall i :: 0 <= i < |es| && es[i].ValidationCompleted? && es[i].runId == run ==>
          es[i].validation != ValidationFailed)
    && (forall i :: 0 <= i < |es| && es[i].EvaluationCompleted? && es[i].runId == run ==>
          es[i].evaluation != EvaluationFailed && (es[i].policy == StrictPolicy ==> es[i].evaluation == EvaluationPassed))
  }

  /** Everything a patch application rests on, read off the history alone. */
  predicate Earned(es: seq<Event>, run: Id, changedFileCount: nat, t: nat) {
    && 0 < t < |es|
    && es[t] == TaskCompleted(Some(run), Completed)
    && es[t - 1] == AttemptCompleted(run, Completed, None)
    && Witnessed(es, run, changedFileCount, t)
    && NothingFailed(es, run)
  }

  /** An event of the last attempt lies before the task's end, and agrees with its projection. */
  lemma EventOfLast(es: seq<Event>, p: Projection, t: nat, i: nat)
    requires AttemptsKnown(es, p) && EndsAt(es, t, p) && p.lastAttempt.Some?
    requires i < |es| && RunOf(es[i]) == Some(p.lastAttempt.value.runId)
    ensures i < t && Matches(es[i], p.lastAttempt.value)
  {
    var e := es[i];
    assert i > t ==> IsPatchApplicationEvent(e);
  }

  /** What the last attempt claims, one of its events before the task's end shows. */
  lemma LastShows(es: seq<Event>, p: Projection, t: nat, k: Evidence) returns (i: nat)
    requires AttemptsKnown(es, p) && EndsAt(es, t, p) && p.lastAttempt.Some? && Claims(p.lastAttempt.value, k)
    ensures i < t && Shows(es[i], k, p.lastAttempt.value.runId) && Matches(es[i], p.lastAttempt.value)
  {
    assert Seen(es, k, p.lastAttempt.value.runId);
    var j: nat :| j < |es| && Shows(es[j], k, p.lastAttempt.value.runId);
    EventOfLast(es, p, t, j);
    i := j;
  }

  /** A completed attempt claims everything but, perhaps, a patch. */
  lemma CompletedClaims(es: seq<Event>, p: Projection, k: Evidence)
    requires AttemptsKnown(es, p) && p.lastAttempt.Some? && p.lastAttempt.value.status == Some(Completed)
    ensures k != OfPatch ==> Claims(p.lastAttempt.value, k)
    ensures p.lastAttempt.value.workerOutcome == Some(true)
  {
  }

  lemma LastWitnessed(es: seq<Event>, p: Projection, t: nat)
    requires AttemptsKnown(es, p) && EndsAt(es, t, p) && p.lastAttempt.Some?
    requires p.lastAttempt.value.status == Some(Completed) && p.lastAttempt.value.patch.Some?
    requires forall i :: 0 <= i < |es| ==> ValidData(es[i])
    ensures Witnessed(es, p.lastAttempt.value.runId, p.lastAttempt.value.patch.value.1, t)
  {
    CompletedClaims(es, p, OfWorker);
    CompletedClaims(es, p, OfValidation);
    CompletedClaims(es, p, OfEvaluation);
    var w := LastShows(es, p, t, OfWorker);
    assert ValidData(es[w]);
    var c := LastShows(es, p, t, OfPatch);
    var v := LastShows(es, p, t, OfValidation);
    var x := LastShows(es, p, t, OfEvaluation);
  }

  lemma LastNeverFailed(es: seq<Event>, p: Projection)
    requires AttemptsKnown(es, p) && p.lastAttempt.Some? && p.lastAttempt.value.status == Some(Completed)
    ensures NothingFailed(es, p.lastAttempt.value.runId)
  {
    var a := p.lastAttempt.value;
    forall i | 0 <= i < |es| && RunOf(es[i]) == Some(a.runId) ensures Matches(es[i], a) {}
  }

  lemma AppliedIsLast(es: seq<Event>, p: Projection, k: nat)
    requires ApplicationKnown(es, p) && k < |es| && es[k].PatchApplied?
    ensures p.application == Applied && k == |es| - 1 && k >= 2
    ensures forall j :: 0 <= j < k ==> !es[j].PatchApplied?
    ensures es[k - 2] == PatchApplicationRequested(es[k].runId) && es[k - 1] == PatchApproved(es[k].runId)
    ensures Applicable(p, es[k].runId) && p.lastAttempt.value.patch.value.1 == es[k].changedFileCount
  {
  }

  /** In every accepted task history a patch is applied at most once and by the last event; its request
      and its approval, for the same run, are the two events before it; and that run is the last attempt,
      completed, with the patch of that many files, a successful worker, no failed validation or
      evaluation, and a passed evaluation where the policy is strict. */
  lemma PatchGate(es: seq<Event>, k: nat)
    requires Accepted(es) && k < |es| && es[k].PatchApplied?
    ensures k == |es| - 1 && k >= 2
    ensures forall j :: 0 <= j < k ==> !es[j].PatchApplied?
    ensures es[k - 2] == PatchApplicationRequested(es[k].runId) && es[k - 1] == PatchApproved(es[k].runId)
    ensures exists t: nat :: t < k - 2 && Earned(es, es[k].runId, es[k].changedFileCount, t)
  {
    AcceptedHistory(es);
    ValidEvents(es);
    var p := Replay(es).value;
    AppliedIsLast(es, p, k);
    var t: nat :| EndsAt(es, t, p);
    LastWitnessed(es, p, t);
    LastNeverFailed(es, p);
    assert t != k - 2 && t != k - 1 && t != k;
    assert Earned(es, es[k].runId, es[k].changedFileCount, t);
  }

  lemma {:induction false} ValidEvents(es: seq<Event>)
    requires Accepted(es)
    ensures forall i :: 0 <= i < |es| ==> ValidData(es[i])
  {
    var before := es[..|es| - 1];
    if before != [] { ValidEvents(before); }
    assert forall i :: 0 <= i < |es| - 1 ==> es[i] == before[i];
  }
}
