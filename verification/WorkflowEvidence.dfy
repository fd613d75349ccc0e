/** The evidence of a workflow's candidate: the scan of its own history that every approval rests on, and
    when that scan succeeds (src/workflow/service.ts, validateCandidateForApproval). */
module WorkflowEvidence {
  import opened Domain
  import opened Wrappers
  import opened WorkflowModel
  import opened WorkflowInvariants
  import opened WorkflowLineage

  /** The event names the worker run of its stage. */
  predicate NamesRun(e: Event) {
    e.StageCompleted? && e.runId.Some? && e.taskId.Some?
  }

  /** The run became the candidate here. */
  predicate Originates(e: Event, candidate: Id) {
    NamesRun(e) && e.status == Completed && e.runId == Some(candidate) && e.candidateRunId == Some(candidate)
  }

  /** The start of the stage that the event completes is in the history. */
  predicate HasStart(es: seq<Event>, e: Event)
    requires e.StageCompleted?
  {
    exists i :: 0 <= i < |es| && es[i].StageStarted? && es[i].stage == e.stage && es[i].executionId == e.executionId
  }

  predicate RunsDiffer(es: seq<Event>) {
    forall i, j :: 0 <= i < j < |es| && NamesRun(es[i]) && NamesRun(es[j]) ==> es[i].runId != es[j].runId
  }

  /** The evidence holds: each stage that names a run has its start, a run of its own, and a stored report
      that bears it out (the events in `intact`), and one of them produced the candidate. */
  predicate EvidenceHolds(es: seq<Event>, candidate: Id, intact: set<Event>) {
    && (forall i :: 0 <= i < |es| && NamesRun(es[i]) ==> HasStart(es, es[i]) && es[i] in intact)
    && RunsDiffer(es)
    && (exists i :: 0 <= i < |es| && Originates(es[i], candidate))
  }

  /** The last stage completion or approval decision. */
  function LastBranch(es: seq<Event>): Option<Event> {
    if es == [] then None
    else
      var e := es[|es| - 1];
      if e.StageCompleted? || e.ApprovalDecided? then Some(e) else LastBranch(es[..|es| - 1])
  }

  lemma {:induction false} LastBranchIsLast(es: seq<Event>, i: nat)
    requires i < |es| && (es[i].StageCompleted? || es[i].ApprovalDecided?)
    requires forall j :: i < j < |es| ==> !es[j].StageCompleted? && !es[j].ApprovalDecided?
    ensures LastBranch(es) == Some(es[i])
  {
    if i < |es| - 1 { LastBranchIsLast(es[..|es| - 1], i); }
  }

  /** A failed stage sent the workflow to this one. */
  predicate SentTo(e: Event, stage: StageName) {
    e.StageCompleted? && e.status != Completed && e.nextStage == Some(Worker(stage))
  }

  /** validateBranchEvidence: a stage that a failed one led to needs the stored report of that failure. */
  predicate BranchHolds(es: seq<Event>, stage: StageName, intact: set<Event>) {
    var branch := LastBranch(es);
    branch.Some? && SentTo(branch.value, stage) ==>
      NamesRun(branch.value) && HasStart(es, branch.value) && branch.value in intact
  }

  /** The evidence fails exactly if the last branch is a failed stage that led here, and its run is not named,
      not started in this history, or not borne out by its stored report. */
  lemma {:induction false} BranchFails(es: seq<Event>, stage: StageName, intact: set<Event>)
    ensures !BranchHolds(es, stage, intact) <==>
            exists i :: 0 <= i < |es| && IsLastBranch(es, i) && es[i].StageCompleted? && es[i].status != Completed
                        && es[i].nextStage == Some(Worker(stage))
                        && !(NamesRun(es[i]) && HasStart(es, es[i]) && es[i] in intact)
  {
    LastBranchFound(es);
    forall i | 0 <= i < |es| && IsLastBranch(es, i) ensures LastBranch(es) == Some(es[i]) { LastBranchIsLast(es, i); }
  }

  predicate IsLastBranch(es: seq<Event>, i: nat)
    requires i < |es|
  {
    && (es[i].StageCompleted? || es[i].ApprovalDecided?)
    && forall j :: i < j < |es| ==> !es[j].StageCompleted? && !es[j].ApprovalDecided?
  }

  lemma {:induction false} LastBranchFound(es: seq<Event>)
    ensures LastBranch(es).Some? ==> exists i :: 0 <= i < |es| && IsLastBranch(es, i) && LastBranch(es) == Some(es[i])
  {
    if es != [] {
      var n := |es| - 1;
      if es[n].StageCompleted? || es[n].ApprovalDecided? {
        assert IsLastBranch(es, n);
      } else if LastBranch(es).Some? {
        LastBranchFound(es[..n]);
        var i :| 0 <= i < n && IsLastBranch(es[..n], i) && LastBranch(es[..n]) == Some(es[..n][i]);
        assert forall j :: i < j < n ==> es[..n][j] == es[j];
        assert IsLastBranch(es, i);
      }
    }
  }

  /** An event that completes no stage takes nothing from the evidence. */
  lemma EvidenceSnoc(es: seq<Event>, e: Event, candidate: Id, intact: set<Event>)
    requires EvidenceHolds(es, candidate, intact) && !e.StageCompleted?
    ensures EvidenceHolds(es + [e], candidate, intact)
  {
    var more := es + [e];
    assert forall i :: 0 <= i < |es| ==> more[i] == es[i];
    forall i | 0 <= i < |more| && NamesRun(more[i]) ensures HasStart(more, more[i]) && more[i] in intact {
      StartStays(es, e, es[i]);
    }
    var k :| 0 <= k < |es| && Originates(es[k], candidate);
    assert Originates(more[k], candidate);
  }

  /** The scan behind n events. */
  ghost predicate ScannedTo(es: seq<Event>, n: nat, candidate: Id, intact: set<Event>, seen: set<Id>, validated: bool)
    requires n <= |es|
  {
    && (forall i :: 0 <= i < n && NamesRun(es[i]) ==> HasStart(es, es[i]) && es[i] in intact && es[i].runId.value in seen)
    && (forall r :: r in seen ==> exists i :: 0 <= i < n && NamesRun(es[i]) && es[i].runId == Some(r))
    && RunsDiffer(es[..n])
    && (validated <==> exists i :: 0 <= i < n && Originates(es[i], candidate))
  }

  lemma ScansOn(es: seq<Event>, n: nat, candidate: Id, intact: set<Event>, seen: set<Id>, validated: bool)
    requires n < |es| && ScannedTo(es, n, candidate, intact, seen, validated)
    ensures !NamesRun(es[n]) ==> ScannedTo(es, n + 1, candidate, intact, seen, validated)
    ensures NamesRun(es[n]) && es[n].runId.value !in seen && HasStart(es, es[n]) && es[n] in intact ==>
              ScannedTo(es, n + 1, candidate, intact, seen + {es[n].runId.value}, validated || Originates(es[n], candidate))
    ensures NamesRun(es[n]) && es[n].runId.value in seen ==> !RunsDiffer(es)
  {
    assert es[..n + 1] == es[..n] + [es[n]];
    assert forall i :: 0 <= i < n ==> es[..n][i] == es[i];
  }

  /** The scan itself, event by event. */
  method ScanEvidence(es: seq<Event>, candidate: Id, intact: set<Event>) returns (ok: bool)
    ensures ok == EvidenceHolds(es, candidate, intact)
  {
    var seen: set<Id>, validated := {}, false;
    for n := 0 to |es|
      invariant ScannedTo(es, n, candidate, intact, seen, validated)
    {
      ScansOn(es, n, candidate, intact, seen, validated);
      var e := es[n];
      if NamesRun(e) {
        if e.runId.value in seen { return false; }
        seen := seen + {e.runId.value};
        if !HasStart(es, e) || e !in intact { return false; }
        validated := validated || Originates(e, candidate);
      }
    }
    assert es[..|es|] == es;
    return validated;
  }

  ghost predicate StartsKnown(es: seq<Event>) {
    forall i :: 0 <= i < |es| && es[i].StageCompleted? ==> HasStart(es, es[i])
  }

  lemma StartStays(es: seq<Event>, e: Event, completed: Event)
    requires completed.StageCompleted? && HasStart(es, completed)
    ensures HasStart(es + [e], completed)
  {
    var i :| 0 <= i < |es| && es[i].StageStarted? && es[i].stage == completed.stage && es[i].executionId == completed.executionId;
    assert (es + [e])[i] == es[i];
  }

  lemma StartJustBefore(es: seq<Event>, p: Projection, e: Event)
    requires StartIsLast(es, p) && e.StageCompleted? && Project(Some(p), e).Some?
    ensures HasStart(es + [e], e)
  {
    assert (es + [e])[|es| - 1] == es[|es| - 1];
  }

  lemma StartsStep(es: seq<Event>, e: Event)
    requires StartsKnown(es) && (e.StageCompleted? ==> HasStart(es + [e], e))
    ensures StartsKnown(es + [e])
  {
    var more := es + [e];
    forall i | 0 <= i < |more| && more[i].StageCompleted? ensures HasStart(more, more[i]) {
      if i < |es| { StartStays(es, e, es[i]); }
    }
  }

  /** In an accepted history every completed stage has its start: the event just before it. */
  lemma {:induction false} StartsFound(es: seq<Event>)
    requires Accepted(es)
    ensures StartsKnown(es)
  {
    var before, e := es[..|es| - 1], es[|es| - 1];
    if before != [] {
      StartsFound(before);
      AcceptedLineage(before);
      if e.StageCompleted? { StartJustBefore(before, Replay(before).value, e); }
      StartsStep(before, e);
      assert es == before + [e];
    } else {
      assert Replay(es) == Project(Replay(before), e);
      assert es == [e] && !e.StageCompleted?;
    }
  }

  /** The workflow is at its approval, or approved and not yet closed. */
  predicate AtApproval(p: Projection) {
    && !p.status.Ended?
    && (p.currentStage == Some(Approval) || (p.currentStage.None? && p.approvalDecision == Some(Approved)))
  }

  lemma ReviewedThen(es: seq<Event>, p: Projection) returns (c: Chain)
    requires LineageKnown(es, p) && AtApproval(p)
    ensures ReviewedFor(es, p, c)
  {
    if p.currentStage == Some(Approval) {
      c :| ReviewedFor(es, p, c);
    } else {
      var d, a :| ReviewedFor(es, p, d) && Vouched(es, d, a);
      c := d;
    }
  }

  lemma ReviewedDelivers(es: seq<Event>, d: Definition, c: Chain)
    requires Reviewed(es, d, c)
    ensures Delivers(es[c.reviewed]) && es[c.reviewed].runId == Some(c.reviewedBy)
  {
  }

  /** An accepted delivery names its run as the candidate. */
  lemma DeliveryOriginates(es: seq<Event>, k: nat, run: Id)
    requires Accepted(es) && k < |es| && Delivers(es[k]) && es[k].runId == Some(run)
    ensures Originates(es[k], run)
  {
    AcceptedPrefix(es, k + 1);
    var upTo := es[..k + 1];
    assert upTo[|upTo| - 1] == es[k];
    assert Project(Replay(upTo[..k]), es[k]).Some?;
  }

  /** At its approval, and once approved, an accepted history shows where the candidate came from. */
  lemma CandidateOriginates(es: seq<Event>)
    requires Accepted(es) && AtApproval(Replay(es).value)
    ensures Replay(es).value.candidateRunId.Some?
    ensures exists i :: 0 <= i < |es| && Originates(es[i], Replay(es).value.candidateRunId.value)
  {
    AcceptedLineage(es);
    var p := Replay(es).value;
    var c := ReviewedThen(es, p);
    ReviewedDelivers(es, p.definition, c);
    DeliveryOriginates(es, c.reviewed, c.reviewedBy);
  }

  /** So at an approval the scan looks for nothing it could miss: it succeeds exactly when every stage's
      stored report bears it out and no run served two stages. */
  lemma EvidenceIsReports(es: seq<Event>, intact: set<Event>)
    requires Accepted(es) && AtApproval(Replay(es).value)
    ensures Replay(es).value.candidateRunId.Some?
    ensures EvidenceHolds(es, Replay(es).value.candidateRunId.value, intact) <==>
            RunsDiffer(es) && forall i :: 0 <= i < |es| && NamesRun(es[i]) ==> es[i] in intact
  {
    CandidateOriginates(es);
    StartsFound(es);
  }
}
