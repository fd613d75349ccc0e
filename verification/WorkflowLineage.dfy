/** Approval lineage: where the candidate of a completed workflow came from. */
module WorkflowLineage {
  import opened Domain
  import opened Wrappers
  import opened WorkflowModel
  import opened WorkflowInvariants

  /** The event completes a stage that produces a candidate. */
  predicate Delivers(e: Event) {
    e.StageCompleted? && e.status == Completed && e.stage != Plan
  }

  /** Position i completes stage s with run r, and the event just before it started that very
      execution from the given source run. */
  predicate Ran(es: seq<Event>, i: nat, s: StageName, r: Id, source: Option<Id>) {
    && 0 < i < |es|
    && Delivers(es[i])
    && es[i].stage == s
    && es[i].runId == Some(r)
    && es[i - 1].StageStarted?
    && es[i - 1].stage == s
    && es[i - 1].executionId == es[i].executionId
    && es[i - 1].sourceRunId == source
  }

  /** Where each link of a candidate's lineage was completed, and by which run. */
  datatype Chain = Chain(builtFrom: Option<Id>, built: nat, builtBy: Id, tested: nat, testedBy: Id, reviewed: nat, reviewedBy: Id)

  /** The last completed implement or repair stage. */
  predicate Built(es: seq<Event>, c: Chain) {
    && (Ran(es, c.built, Implement, c.builtBy, None) || Ran(es, c.built, Repair, c.builtBy, c.builtFrom))
    && (forall k :: c.built < k < |es| && Delivers(es[k]) ==> es[k].stage != Implement && es[k].stage != Repair)
  }

  /** A configured test stage completed since, started from the built run. */
  predicate Tested(es: seq<Event>, d: Definition, c: Chain) {
    && Built(es, c)
    && (if d.test.Some? then c.built < c.tested && Ran(es, c.tested, Test, c.testedBy, Some(c.builtBy))
        else c.tested == c.built && c.testedBy == c.builtBy)
  }

  /** A configured review stage completed after that, started from the tested run, and
      no stage has delivered a candidate since. */
  predicate Reviewed(es: seq<Event>, d: Definition, c: Chain) {
    && Tested(es, d, c)
    && (if d.review.Some? then c.tested < c.reviewed && Ran(es, c.reviewed, Review, c.reviewedBy, Some(c.testedBy))
        else c.reviewed == c.tested && c.reviewedBy == c.testedBy)
    && c.reviewed < |es|
    && (forall k :: c.reviewed < k < |es| ==> !Delivers(es[k]))
  }

  /** The reviewed run was put up for approval afterwards and approved at once. */
  predicate Vouched(es: seq<Event>, c: Chain, a: nat) {
    && c.reviewed < a
    && a + 1 < |es|
    && es[a] == ApprovalRequested(c.reviewedBy)
    && es[a + 1] == ApprovalDecided(Approved, None)
  }

  /** The chain of a candidate at its approval. */
  predicate ReviewedFor(es: seq<Event>, p: Projection, c: Chain) {
    Reviewed(es, p.definition, c) && Some(c.reviewedBy) == p.candidateRunId
  }

  /** How far the lineage of the current candidate has come, by the stage the workflow is at. */
  ghost predicate LineageKnown(es: seq<Event>, p: Projection) {
    match p.currentStage
    case Some(Worker(Test)) => exists c :: Built(es, c) && Some(c.builtBy) == p.candidateRunId
    case Some(Worker(Review)) => exists c :: Tested(es, p.definition, c) && Some(c.testedBy) == p.candidateRunId
    case Some(Worker(_)) => true
    case Some(Approval) =>
      exists c :: && ReviewedFor(es, p, c)
                  && (p.approvalRequested ==>
                        c.reviewed < |es| - 1 && es[|es| - 1] == ApprovalRequested(c.reviewedBy))
    case None =>
      p.approvalDecision == Some(Approved) && (p.status.Ended? ==> p.status.outcome == Completed) ==>
        exists c, a :: ReviewedFor(es, p, c) && Vouched(es, c, a)
  }

  /** A running stage was started by the last event, from the candidate when it needs one. */
  predicate StartIsLast(es: seq<Event>, p: Projection) {
    p.activeExecutionId.Some? ==>
      && es != []
      && es[|es| - 1].StageStarted?
      && Some(Worker(es[|es| - 1].stage)) == p.currentStage
      && Some(es[|es| - 1].executionId) == p.activeExecutionId
      && es[|es| - 1].sourceRunId ==
           (if es[|es| - 1].stage == Plan || es[|es| - 1].stage == Implement then None else p.candidateRunId)
  }

  lemma ReviewedGrows(es: seq<Event>, d: Definition, c: Chain, e: Event)
    requires !Delivers(e)
    ensures Built(es, c) ==> Built(es + [e], c)
    ensures Tested(es, d, c) ==> Tested(es + [e], d, c)
    ensures Reviewed(es, d, c) ==> Reviewed(es + [e], d, c)
  {
  }

  lemma RequestStep(es: seq<Event>, p: Projection, e: Event)
    requires LineageKnown(es, p) && Project(Some(p), e).Some? && e.ApprovalRequested?
    ensures LineageKnown(es + [e], Project(Some(p), e).value)
  {
    var c :| ReviewedFor(es, p, c);
    ReviewedGrows(es, p.definition, c, e);
    assert ReviewedFor(es + [e], Project(Some(p), e).value, c) && (es + [e])[|es|] == ApprovalRequested(c.reviewedBy);
  }

  lemma ApprovalStep(es: seq<Event>, p: Projection, e: Event)
    requires StateInvariant(p) && LineageKnown(es, p) && Project(Some(p), e).Some?
    requires e.ApprovalDecided? && e.decision == Approved
    ensures LineageKnown(es + [e], Project(Some(p), e).value)
  {
    var c :| ReviewedFor(es, p, c) && c.reviewed < |es| - 1 && es[|es| - 1] == ApprovalRequested(c.reviewedBy);
    ReviewedGrows(es, p.definition, c, e);
    assert ReviewedFor(es + [e], Project(Some(p), e).value, c) && Vouched(es + [e], c, |es| - 1);
  }

  /** An approved workflow has only its closing to wait for. */
  lemma ApprovedStep(es: seq<Event>, p: Projection, e: Event)
    requires StateInvariant(p) && LineageKnown(es, p) && Project(Some(p), e).Some? && !Delivers(e)
    requires p.currentStage.None?
    ensures LineageKnown(es + [e], Project(Some(p), e).value)
  {
    var q := Project(Some(p), e).value;
    if q.approvalDecision == Some(Approved) && (q.status.Ended? ==> q.status.outcome == Completed) {
      var c, a :| ReviewedFor(es, p, c) && Vouched(es, c, a);
      ReviewedGrows(es, p.definition, c, e);
      assert ReviewedFor(es + [e], q, c) && Vouched(es + [e], c, a);
    }
  }

  /** At a stage, the rest leaves the chain alone, or the stage. */
  lemma StagedStep(es: seq<Event>, p: Projection, e: Event)
    requires StateInvariant(p) && LineageKnown(es, p) && Project(Some(p), e).Some? && !Delivers(e)
    requires p.currentStage.Some? && !e.ApprovalRequested? && !(e.ApprovalDecided? && e.decision == Approved)
    ensures LineageKnown(es + [e], Project(Some(p), e).value)
  {
    forall c ensures
        && (Built(es, c) ==> Built(es + [e], c))
        && (Tested(es, p.definition, c) ==> Tested(es + [e], p.definition, c))
        && (Reviewed(es, p.definition, c) ==> Reviewed(es + [e], p.definition, c))
    {
      ReviewedGrows(es, p.definition, c, e);
    }
  }

  /** A step that delivers no candidate keeps what is known. */
  lemma QuietStep(es: seq<Event>, p: Projection, e: Event)
    requires StateInvariant(p) && LineageKnown(es, p)
    requires Project(Some(p), e).Some? && !Delivers(e)
    ensures LineageKnown(es + [e], Project(Some(p), e).value)
  {
    if p.currentStage.None? {
      ApprovedStep(es, p, e);
    } else if e.ApprovalRequested? {
      RequestStep(es, p, e);
    } else if e.ApprovalDecided? && e.decision == Approved {
      ApprovalStep(es, p, e);
    } else {
      StagedStep(es, p, e);
    }
  }

  /** A completed stage was started by the event before it. */
  lemma DeliveredRan(es: seq<Event>, p: Projection, e: Event)
    requires StateInvariant(p) && StartIsLast(es, p)
    requires Project(Some(p), e).Some? && Delivers(e)
    ensures e.runId.Some? && Project(Some(p), e).value.candidateRunId == e.runId
    ensures Ran(es + [e], |es|, e.stage, e.runId.value,
                if e.stage == Implement then None else p.candidateRunId)
  {
    assert (es + [e])[|es| - 1] == es[|es| - 1];
  }

  /** A completed stage extends the lineage by the run that completed it. */
  lemma DeliveryStep(es: seq<Event>, p: Projection, e: Event)
    requires StateInvariant(p) && LineageKnown(es, p) && StartIsLast(es, p)
    requires Project(Some(p), e).Some? && Delivers(e)
    ensures LineageKnown(es + [e], Project(Some(p), e).value)
  {
    DeliveredRan(es, p, e);
    var d, n, r := p.definition, |es|, e.runId.value;
    var q := Project(Some(p), e).value;
    assert q.currentStage == Some(NextSuccessfulStage(d, e.stage)) && !q.approvalRequested;
    match e.stage
    case Implement => BuildLinks(es + [e], d, Chain(None, n, r, n, r, n, r));
    case Repair => BuildLinks(es + [e], d, Chain(p.candidateRunId, n, r, n, r, n, r));
    case Test =>
      var b :| Built(es, b) && Some(b.builtBy) == p.candidateRunId;
      TestLinks(es, e, d, b);
    case Review =>
      var t :| Tested(es, d, t) && Some(t.testedBy) == p.candidateRunId;
      ReviewLinks(es, e, d, t);
  }

  lemma BuildLinks(es: seq<Event>, d: Definition, c: Chain)
    requires 0 < |es| && c.built == c.tested == c.reviewed == |es| - 1
    requires c.builtBy == c.testedBy == c.reviewedBy
    requires Ran(es, c.built, Implement, c.builtBy, None) || Ran(es, c.built, Repair, c.builtBy, c.builtFrom)
    ensures Built(es, c)
    ensures d.test.None? ==> Tested(es, d, c)
    ensures d.test.None? && d.review.None? ==> Reviewed(es, d, c)
  {
  }

  lemma TestLinks(es: seq<Event>, e: Event, d: Definition, b: Chain)
    requires Built(es, b) && d.test.Some? && Delivers(e) && e.stage == Test && e.runId.Some?
    requires Ran(es + [e], |es|, Test, e.runId.value, Some(b.builtBy))
    ensures var c := b.(tested := |es|, testedBy := e.runId.value, reviewed := |es|, reviewedBy := e.runId.value);
            Tested(es + [e], d, c) && (d.review.None? ==> Reviewed(es + [e], d, c))
  {
  }

  lemma ReviewLinks(es: seq<Event>, e: Event, d: Definition, t: Chain)
    requires Tested(es, d, t) && d.review.Some? && Delivers(e) && e.stage == Review && e.runId.Some?
    requires Ran(es + [e], |es|, Review, e.runId.value, Some(t.testedBy))
    ensures Reviewed(es + [e], d, t.(reviewed := |es|, reviewedBy := e.runId.value))
  {
  }

  lemma StartStep(es: seq<Event>, p: Projection, e: Event)
    requires StateInvariant(p) && StartIsLast(es, p) && Project(Some(p), e).Some?
    ensures StartIsLast(es + [e], Project(Some(p), e).value)
  {
  }

  lemma {:induction false} AcceptedLineage(es: seq<Event>)
    requires Accepted(es)
    ensures LineageKnown(es, Replay(es).value) && StartIsLast(es, Replay(es).value)
  {
    var before, e := es[..|es| - 1], es[|es| - 1];
    if before != [] {
      AcceptedLineage(before);
      AcceptedState(before);
      var p := Replay(before).value;
      StartStep(before, p, e);
      if Delivers(e) { DeliveryStep(before, p, e); } else { QuietStep(before, p, e); }
      assert es == before + [e];
    }
  }

  /** In every accepted history that ends completed, the delivered candidate is the run of the last
      completed stage past planning; since the last completed implement or repair stage every
      configured test and then review stage completed, each started from the run before it; and that
      candidate was the one put up for approval, and approved, afterwards. */
  lemma ApprovalLineage(es: seq<Event>)
    requires Accepted(es) && Replay(es).value.status == Ended(Completed)
    ensures var p := Replay(es).value;
            exists c, a :: && Reviewed(es, p.definition, c) && Vouched(es, c, a)
                           && p.candidateRunId == Some(c.reviewedBy)
                           && es[|es| - 1] == WorkflowCompleted(Completed, None, Some(c.reviewedBy))
  {
    AcceptedLineage(es);
    var before, e := es[..|es| - 1], es[|es| - 1];
    AcceptedState(before);
    assert Project(Replay(before), e) == Replay(es);
    assert e.WorkflowCompleted? && e.status == Completed;
    AcceptedState(es);
    var p := Replay(es).value;
    assert p.approvalDecision == Some(Approved);
    var c, a :| ReviewedFor(es, p, c) && Vouched(es, c, a);
  }
}
