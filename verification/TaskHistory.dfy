/** Looking a run up in its task's history: the search for its events and the link between a report
    and its history (src/artifacts/task-journal.ts, isRunLinked). */
module TaskHistory {
  import opened Domain
  import opened Wrappers
  import opened TaskModel
  import opened TaskEvaluation
  import opened TaskPatchGate

  datatype Kind = Start | Patch | Evaluation | End

  predicate Is(kind: Kind, run: Id, e: Event) {
    match kind
    case Start => e.WorkerStarted? && e.runId == run
    case Patch => e.PatchProduced? && e.runId == run
    case Evaluation => e.EvaluationCompleted? && e.runId == run
    case End => e.AttemptCompleted? && e.runId == run
  }

  /** `events.find`: the first event of that kind and run. */
  function Find(es: seq<Event>, kind: Kind, run: Id): (found: Option<Event>)
    ensures found.Some? ==> Is(kind, run, found.value)
  {
    if es == [] then None
    else
      var before := Find(es[..|es| - 1], kind, run);
      if before.Some? then before
      else if Is(kind, run, es[|es| - 1]) then Some(es[|es| - 1])
      else None
  }

  function FindCompleted(es: seq<Event>): Option<Event> {
    if es == [] then None
    else
      var before := FindCompleted(es[..|es| - 1]);
      if before.Some? then before else if es[|es| - 1].TaskCompleted? then Some(es[|es| - 1]) else None
  }

  lemma FindSnoc(es: seq<Event>, e: Event, kind: Kind, run: Id)
    ensures Find(es + [e], kind, run)
         == if Find(es, kind, run).Some? then Find(es, kind, run) else if Is(kind, run, e) then Some(e) else None
  {
    assert (es + [e])[..|es|] == es;
  }

  /** Nothing that a lookup of this run could find has been added. */
  ghost predicate SameFinds(before: seq<Event>, after: seq<Event>, run: Id) {
    forall kind: Kind :: Find(after, kind, run) == Find(before, kind, run)
  }

  lemma FindsSnoc(es: seq<Event>, e: Event, run: Id)
    requires forall kind: Kind :: !Is(kind, run, e)
    ensures SameFinds(es, es + [e], run)
  {
    forall kind: Kind ensures Find(es + [e], kind, run) == Find(es, kind, run) {
      FindSnoc(es, e, kind, run);
    }
  }

  lemma FindCompletedSnoc(es: seq<Event>, e: Event)
    ensures FindCompleted(es + [e])
         == if FindCompleted(es).Some? then FindCompleted(es) else if e.TaskCompleted? then Some(e) else None
  {
    assert (es + [e])[..|es|] == es;
  }

  /** The search finds an event exactly when there is one, and then the first. */
  lemma {:induction false} FindIsFirst(es: seq<Event>, kind: Kind, run: Id)
    ensures Find(es, kind, run).None? <==> forall i :: 0 <= i < |es| ==> !Is(kind, run, es[i])
    ensures forall e :: Find(es, kind, run) == Some(e) ==>
              exists i :: 0 <= i < |es| && es[i] == e && Is(kind, run, e)
                          && forall j :: 0 <= j < i ==> !Is(kind, run, es[j])
  {
    if es != [] {
      var before := es[..|es| - 1];
      FindIsFirst(before, kind, run);
      assert forall i :: 0 <= i < |before| ==> es[i] == before[i];
      if Find(before, kind, run).Some? {
        var e := Find(before, kind, run).value;
        var i :| 0 <= i < |before| && before[i] == e && Is(kind, run, e)
                 && forall j :: 0 <= j < i ==> !Is(kind, run, before[j]);
        assert es[i] == e;
      }
    }
  }

  /** The run an event belongs to, its start included. */
  function Mentions(e: Event): Option<Id> {
    if e.WorkerStarted? then Some(e.runId) else RunOf(e)
  }

  /** The worker run's report, with the parts of it that its history also records. */
  datatype Report = Report(
    runId: Id,
    workerId: WorkerId,
    status: RunStatus,
    failureCode: Option<string>,
    changedFileCount: nat,
    patchSha256: Option<nat>,
    results: seq<EvaluationResult>,
    policy: EvaluationPolicy)

  /** isRunLinked: the history tells the same about the run as its report does. */
  predicate Linked(es: seq<Event>, r: Report) {
    var started, produced := Find(es, Start, r.runId), Find(es, Patch, r.runId);
    var ended, completed := Find(es, End, r.runId), FindCompleted(es);
    var evaluation := EvaluationEvent(r.runId, r.results, r.policy);
    && started.Some? && started.value.workerId == r.workerId
    && (if r.patchSha256.None? then
          if r.changedFileCount == 0 then produced.None?
          else
            && r.status == Failed && PatchSize in CollectDimensionIds(r.results, Failing)
            && produced.Some? && produced.value.changedFileCount == r.changedFileCount
        else
          && produced.Some? && produced.value.PatchProduced?
          && produced.value.patchSha256 == r.patchSha256.value
          && produced.value.changedFileCount == r.changedFileCount)
    && ended == Some(AttemptCompleted(r.runId, r.status, r.failureCode))
    && Find(es, Evaluation, r.runId) == Some(evaluation)
    && completed == Some(TaskCompleted(Some(r.runId), r.status))
  }

  lemma {:induction false} FoundCompletion(es: seq<Event>)
    ensures FindCompleted(es).Some? ==>
              FindCompleted(es).value.TaskCompleted? && exists i :: 0 <= i < |es| && es[i] == FindCompleted(es).value
    ensures FindCompleted(es).None? ==> forall i :: 0 <= i < |es| ==> !es[i].TaskCompleted?
  {
    if es != [] {
      FoundCompletion(es[..|es| - 1]);
      assert forall i :: 0 <= i < |es| - 1 ==> es[..|es| - 1][i] == es[i];
    }
  }

  /** Once ended, a task keeps its status. */
  lemma StatusStays(p: Projection, e: Event)
    requires Project(Some(p), e).Some?
    ensures p.status.Some? ==> Project(Some(p), e).value.status == p.status
    ensures e.TaskCompleted? ==> p.status.None? && Project(Some(p), e).value.status == Some(e.status)
  {
  }

  /** An accepted history is over once it holds a task completion. */
  lemma {:induction false} CompletionEnds(es: seq<Event>)
    requires Accepted(es)
    ensures forall i :: 0 <= i < |es| && es[i].TaskCompleted? ==>
              Replay(es).value.status == Some(es[i].status)
  {
    var before, e := es[..|es| - 1], es[|es| - 1];
    if before != [] {
      CompletionEnds(before);
      StatusStays(Replay(before).value, e);
      assert forall i :: 0 <= i < |before| ==> es[i] == before[i];
    }
  }

  /** A linked patch changes a number of files that an application may record. */
  lemma LinkedIsRecordable(es: seq<Event>, r: Report)
    requires Accepted(es) && Linked(es, r) && r.patchSha256.Some?
    ensures ValidData(PatchApplied(r.runId, r.changedFileCount))
  {
    ValidEvents(es);
    FindIsFirst(es, Patch, r.runId);
    var i: nat :| i < |es| && es[i] == Find(es, Patch, r.runId).value;
    assert ValidData(es[i]);
  }

  /** The completion a linked report agrees with is the one that ended the task. */
  lemma LinkedEnds(es: seq<Event>, r: Report)
    requires Accepted(es) && Linked(es, r)
    ensures exists t: nat :: EndsAt(es, t, Replay(es).value) && es[t] == TaskCompleted(Some(r.runId), r.status)
  {
    var p := Replay(es).value;
    AcceptedHistory(es);
    FoundCompletion(es);
    CompletionEnds(es);
    var c: nat :| c < |es| && es[c] == TaskCompleted(Some(r.runId), r.status);
    var t: nat :| EndsAt(es, t, p);
    OneCompletion(es, p, t, c);
  }

  /** The patch a lookup of the last attempt's run finds is the attempt's. */
  lemma FoundPatch(es: seq<Event>, p: Projection, t: nat, sha: nat, files: nat)
    requires AttemptsKnown(es, p) && EndsAt(es, t, p) && p.lastAttempt.Some?
    requires var found := Find(es, Patch, p.lastAttempt.value.runId);
             found.Some? && found.value.patchSha256 == sha && found.value.changedFileCount == files
    ensures p.lastAttempt.value.patch == Some((sha, files))
  {
    var run := p.lastAttempt.value.runId;
    FindIsFirst(es, Patch, run);
    var i: nat :| i < |es| && es[i] == Find(es, Patch, run).value && Is(Patch, run, es[i]);
    EventOfLast(es, p, t, i);
  }

  /** A completed run with a linked patch is one whose patch may be requested, approved and applied. */
  lemma LinkedIsApplicable(es: seq<Event>, r: Report)
    requires Accepted(es) && Linked(es, r) && r.status == Completed && r.patchSha256.Some?
    ensures var p := Replay(es).value;
            Applicable(p, r.runId) && p.lastAttempt.value.patch == Some((r.patchSha256.value, r.changedFileCount))
  {
    var p := Replay(es).value;
    AcceptedHistory(es);
    LinkedEnds(es, r);
    var t: nat :| EndsAt(es, t, p) && es[t] == TaskCompleted(Some(r.runId), r.status);
    FoundPatch(es, p, t, r.patchSha256.value, r.changedFileCount);
    LastStatus(es, p, t);
  }

  lemma LastStatus(es: seq<Event>, p: Projection, t: nat)
    requires AttemptsKnown(es, p) && EndsAt(es, t, p) && p.lastAttempt.Some?
    ensures p.lastAttempt.value.status == p.status
  {
    assert RunOf(es[t - 1]) == Some(p.lastAttempt.value.runId);
    EventOfLast(es, p, t, t - 1);
  }

  /** No second completion. */
  lemma CompletedOnce(es: seq<Event>, i: nat, j: nat)
    requires Accepted(es) && i < j < |es| && es[i].TaskCompleted?
    ensures !es[j].TaskCompleted?
  {
    AcceptedPrefix(es, j);
    CompletionEnds(es[..j]);
    assert es[..j][i] == es[i];
    AcceptedPrefix(es, j + 1);
    assert es[..j + 1] == es[..j] + [es[j]];
    ReplaySnoc(es[..j], es[j]);
  }

  /** The task's one completion names its last attempt. */
  lemma OneCompletion(es: seq<Event>, p: Projection, t: nat, c: nat)
    requires Accepted(es) && EndsAt(es, t, p) && Replay(es) == Some(p)
    requires c < |es| && es[c].TaskCompleted?
    ensures c == t
  {
    if c < t {
      CompletedOnce(es, c, t);
      assert false;
    } else if t < c {
      CompletedOnce(es, t, c);
      assert false;
    }
  }
}
