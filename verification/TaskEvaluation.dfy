/** The deterministic evaluator, the aggregation of evaluator results, and the event they become
    (src/evaluation/deterministic.ts, src/worker/service.ts). */
module TaskEvaluation {
  import opened Domain
  import opened Wrappers
  import opened TaskModel

  datatype Verdict = Passed | Failing | Unknown | NotApplicable

  datatype DimensionResult = DimensionResult(id: Dimension, verdict: Verdict)

  datatype EvaluationResult = EvaluationResult(evaluatorId: string, outcome: EvaluationOutcome,
                                               dimensions: seq<DimensionResult>)

  /** One required command: the dimensions it is evidence for, and how its run went, if it ran. */
  datatype CommandEvidence = CommandEvidence(dimensions: set<Dimension>, failed: bool)

  datatype EvaluationInput = EvaluationInput(
    runStatus: RunStatus,
    failureCode: Option<string>,
    commands: seq<CommandEvidence>,
    changedFileCount: nat,
    maxChangedFiles: nat,
    policyViolationCount: nat,
    scopeViolationCount: nat,
    criteria: seq<Verdict>,
    patchBytes: nat,
    maxPatchBytes: nat,
    warningCount: nat,
    truncatedOutputCount: nat)

  const DETERMINISTIC_ID := "deterministic-v1"

  function DeterministicDimensions(): seq<Dimension> {
    [WorkerExecution, Tests, Lint, Typecheck, ChangedFilesScope, AcceptanceCriteria, PatchSize, NewWarnings,
     SecurityPolicyCompliance]
  }

  function EvaluateCommands(d: Dimension, commands: seq<CommandEvidence>): Verdict {
    if forall i :: 0 <= i < |commands| ==> d !in commands[i].dimensions then NotApplicable
    else if exists i :: 0 <= i < |commands| && d in commands[i].dimensions && commands[i].failed then Failing
    else Passed
  }

  function EvaluateCriteria(criteria: seq<Verdict>): Verdict {
    if criteria == [] then NotApplicable
    else if Failing in criteria then Failing
    else if forall i :: 0 <= i < |criteria| ==> criteria[i] == Passed then Passed
    else Unknown
  }

  function EvaluateDimension(d: Dimension, input: EvaluationInput): Verdict {
    match d
    case WorkerExecution => if input.runStatus == Completed then Passed else Failing
    case Tests => EvaluateCommands(d, input.commands)
    case Lint => EvaluateCommands(d, input.commands)
    case Typecheck => EvaluateCommands(d, input.commands)
    case ChangedFilesScope =>
      if input.changedFileCount == 0 && input.scopeViolationCount == 0 then NotApplicable
      else if input.changedFileCount > input.maxChangedFiles || input.scopeViolationCount > 0 then Failing
      else Passed
    case AcceptanceCriteria => EvaluateCriteria(input.criteria)
    case PatchSize =>
      if input.failureCode in {Some("PATCH_TOO_LARGE"), Some("ARTIFACT_FILE_TOO_LARGE")} then Failing
      else if input.patchBytes == 0 then NotApplicable
      else if input.patchBytes <= input.maxPatchBytes then Passed
      else Failing
    case NewWarnings => if input.warningCount == 0 && input.truncatedOutputCount == 0 then Passed else Unknown
    case SecurityPolicyCompliance => if input.policyViolationCount == 0 then Passed else Failing
    case _ => NotApplicable
  }

  predicate Has(dimensions: seq<DimensionResult>, v: Verdict) {
    exists i :: 0 <= i < |dimensions| && dimensions[i].verdict == v
  }

  function GetOutcome(dimensions: seq<DimensionResult>): EvaluationOutcome {
    if Has(dimensions, Failing) then EvaluationFailed
    else if Has(dimensions, Unknown) then EvaluationInconclusive
    else EvaluationPassed
  }

  function Evaluate(input: EvaluationInput): EvaluationResult {
    var ids := DeterministicDimensions();
    var dimensions := seq(|ids|, i requires 0 <= i < |ids| => DimensionResult(ids[i], EvaluateDimension(ids[i], input)));
    EvaluationResult(DETERMINISTIC_ID, GetOutcome(dimensions), dimensions)
  }

  /** validateEvaluationResult, for one result. */
  predicate ValidResult(r: EvaluationResult) {
    && Bounded(r.evaluatorId, 100)
    && 0 < |r.dimensions| <= 16
    && (forall i, j :: 0 <= i < j < |r.dimensions| ==> r.dimensions[i].id != r.dimensions[j].id)
    && r.outcome == GetOutcome(r.dimensions)
  }

  /** The evaluator's own results are valid, and a run that did not complete always fails. */
  lemma EvaluateIsValid(input: EvaluationInput)
    ensures ValidResult(Evaluate(input)) && Evaluate(input).evaluatorId == DETERMINISTIC_ID
    ensures input.runStatus != Completed ==> Evaluate(input).outcome == EvaluationFailed
  {
    var r := Evaluate(input);
    assert r.dimensions[0].verdict == EvaluateDimension(WorkerExecution, input);
  }

  /** The result lists exactly the dimensions of the built-in evaluator, in their order. */
  predicate IsDeterministic(r: EvaluationResult) {
    && r.evaluatorId == DETERMINISTIC_ID
    && |r.dimensions| == |DeterministicDimensions()|
    && forall i :: 0 <= i < |r.dimensions| ==> r.dimensions[i].id == DeterministicDimensions()[i]
  }

  lemma EvaluatesEach(input: EvaluationInput)
    ensures IsDeterministic(Evaluate(input))
  {
  }

  // ----- Aggregation -----

  predicate SomeOutcome(results: seq<EvaluationResult>, o: EvaluationOutcome) {
    exists i :: 0 <= i < |results| && results[i].outcome == o
  }

  function Aggregate(results: seq<EvaluationResult>): EvaluationOutcome {
    if SomeOutcome(results, EvaluationFailed) then EvaluationFailed
    else if SomeOutcome(results, EvaluationInconclusive) then EvaluationInconclusive
    else EvaluationPassed
  }

  function Select(dimensions: seq<DimensionResult>, v: Verdict): seq<Dimension> {
    if dimensions == [] then []
    else (if dimensions[0].verdict == v then [dimensions[0].id] else []) + Select(dimensions[1..], v)
  }

  function SelectAll(results: seq<EvaluationResult>, v: Verdict): seq<Dimension> {
    if results == [] then [] else Select(results[0].dimensions, v) + SelectAll(results[1..], v)
  }

  /** `[...new Set(items)]`: first occurrences, in order. */
  function Unique(items: seq<Dimension>): seq<Dimension> {
    if items == [] then []
    else
      var before, last := Unique(items[..|items| - 1]), items[|items| - 1];
      if last in before then before else before + [last]
  }

  function CollectDimensionIds(results: seq<EvaluationResult>, v: Verdict): seq<Dimension> {
    Unique(SelectAll(results, v))
  }

  predicate Reports(r: EvaluationResult, d: Dimension, v: Verdict) {
    exists i :: 0 <= i < |r.dimensions| && r.dimensions[i] == DimensionResult(d, v)
  }

  lemma {:induction false} UniqueKeeps(items: seq<Dimension>)
    ensures Distinct(Unique(items))
    ensures forall d :: d in Unique(items) <==> d in items
  {
    if items != [] {
      UniqueKeeps(items[..|items| - 1]);
      assert items == items[..|items| - 1] + [items[|items| - 1]];
    }
  }

  lemma {:induction false} SelectFinds(dimensions: seq<DimensionResult>, v: Verdict, d: Dimension)
    ensures d in Select(dimensions, v) <==>
              exists i :: 0 <= i < |dimensions| && dimensions[i] == DimensionResult(d, v)
  {
    if dimensions != [] {
      SelectFinds(dimensions[1..], v, d);
      if d in Select(dimensions[1..], v) {
        var i :| 0 <= i < |dimensions[1..]| && dimensions[1..][i] == DimensionResult(d, v);
        assert dimensions[i + 1] == DimensionResult(d, v);
      }
      if i :| 0 < i < |dimensions| && dimensions[i] == DimensionResult(d, v) {
        assert dimensions[1..][i - 1] == DimensionResult(d, v);
      }
    }
  }

  lemma {:induction false} SelectAllFinds(results: seq<EvaluationResult>, v: Verdict, d: Dimension)
    ensures d in SelectAll(results, v) <==> exists r :: r in results && Reports(r, d, v)
  {
    if results != [] {
      SelectFinds(results[0].dimensions, v, d);
      SelectAllFinds(results[1..], v, d);
      if d in SelectAll(results[1..], v) {
        var r :| r in results[1..] && Reports(r, d, v);
        assert r in results;
      }
      if d in Select(results[0].dimensions, v) { assert Reports(results[0], d, v); }
      if r :| r in results && Reports(r, d, v) && r != results[0] { assert r in results[1..]; }
    }
  }

  lemma CollectFinds(results: seq<EvaluationResult>, v: Verdict, d: Dimension)
    ensures d in CollectDimensionIds(results, v) <==> exists r :: r in results && Reports(r, d, v)
  {
    UniqueKeeps(SelectAll(results, v));
    SelectAllFinds(results, v, d);
  }

  function AllDimensions(): set<Dimension> {
    {WorkerExecution, Tests, Lint, Typecheck, ChangedFilesScope, AcceptanceCriteria, PatchSize, NewWarnings,
     SecurityPolicyCompliance, Correctness, Maintainability, ArchitectureFit, TestQuality}
  }

  lemma {:induction false} DistinctWithin(s: seq<Dimension>, all: set<Dimension>)
    requires Distinct(s) && forall d :: d in s ==> d in all
    ensures |s| <= |all|
  {
    if s != [] {
      var n := |s| - 1;
      forall d | d in s[..n] ensures d in all - {s[n]} {}
      DistinctWithin(s[..n], all - {s[n]});
    }
  }

  lemma WithinAll(s: seq<Dimension>)
    ensures forall d :: d in s ==> d in AllDimensions()
  {
    forall d: Dimension ensures d in AllDimensions() {
      match d {
        case WorkerExecution => case Tests => case Lint => case Typecheck => case ChangedFilesScope =>
        case AcceptanceCriteria => case PatchSize => case NewWarnings => case SecurityPolicyCompliance =>
        case Correctness => case Maintainability => case ArchitectureFit => case TestQuality =>
      }
    }
  }

  lemma CollectWithinLimit(results: seq<EvaluationResult>, v: Verdict)
    ensures Distinct(CollectDimensionIds(results, v)) && |CollectDimensionIds(results, v)| <= 13
  {
    var ids := CollectDimensionIds(results, v);
    UniqueKeeps(SelectAll(results, v));
    WithinAll(ids);
    DistinctWithin(ids, AllDimensions());
  }

  lemma OutcomeOf(results: seq<EvaluationResult>, o: EvaluationOutcome)
    ensures SomeOutcome(results, o) <==> exists r :: r in results && r.outcome == o
  {
    if r :| r in results && r.outcome == o {
      var i :| 0 <= i < |results| && results[i] == r;
      assert results[i].outcome == o;
    }
  }

  /** The collected dimensions say the same as the aggregated outcome. */
  lemma OutcomeMatchesDimensions(results: seq<EvaluationResult>)
    requires forall r :: r in results ==> ValidResult(r)
    ensures Aggregate(results) == EvaluationFailed <==> CollectDimensionIds(results, Failing) != []
    ensures Aggregate(results) == EvaluationPassed <==>
              CollectDimensionIds(results, Failing) == [] && CollectDimensionIds(results, Unknown) == []
  {
    OutcomeHas(results, Failing);
    OutcomeHas(results, Unknown);
    OutcomeOf(results, EvaluationFailed);
    OutcomeOf(results, EvaluationInconclusive);
    forall r | r in results
      ensures r.outcome == EvaluationFailed <==> Has(r.dimensions, Failing)
      ensures r.outcome == EvaluationInconclusive <==> !Has(r.dimensions, Failing) && Has(r.dimensions, Unknown)
    {
    }
  }

  lemma OutcomeHas(results: seq<EvaluationResult>, v: Verdict)
    ensures CollectDimensionIds(results, v) != [] <==> exists r :: r in results && Has(r.dimensions, v)
  {
    var c := CollectDimensionIds(results, v);
    if c != [] {
      assert c[0] in c;
      CollectFinds(results, v, c[0]);
      var r :| r in results && Reports(r, c[0], v);
      assert Has(r.dimensions, v);
    }
    if r :| r in results && Has(r.dimensions, v) {
      var i :| 0 <= i < |r.dimensions| && r.dimensions[i].verdict == v;
      assert Reports(r, r.dimensions[i].id, v);
      CollectFinds(results, v, r.dimensions[i].id);
    }
  }

  /** assertEvaluatorSet and validateEvaluationSummary: the results of one run. */
  predicate ValidResults(results: seq<EvaluationResult>) {
    && 0 < |results| <= 8
    && IsDeterministic(results[0])
    && (forall r :: r in results ==> ValidResult(r))
    && (forall i, j :: 0 <= i < j < |results| ==> results[i].evaluatorId != results[j].evaluatorId)
  }

  function EvaluatorIds(results: seq<EvaluationResult>): seq<string> {
    seq(|results|, i requires 0 <= i < |results| => results[i].evaluatorId)
  }

  function EvaluationEvent(runId: Id, results: seq<EvaluationResult>, policy: EvaluationPolicy): Event {
    EvaluationCompleted(runId, EvaluatorIds(results), Aggregate(results), policy,
                        CollectDimensionIds(results, Failing), CollectDimensionIds(results, Unknown))
  }

  /** No dimension is failed by one evaluator and left unknown by another. */
  predicate Agree(results: seq<EvaluationResult>) {
    forall r, s, d :: r in results && s in results && Reports(r, d, Failing) ==> !Reports(s, d, Unknown)
  }

  lemma DisjointIffAgree(results: seq<EvaluationResult>)
    ensures Disjoint(CollectDimensionIds(results, Failing), CollectDimensionIds(results, Unknown)) <==> Agree(results)
  {
    var failed, unknown := CollectDimensionIds(results, Failing), CollectDimensionIds(results, Unknown);
    if Agree(results) {
      forall i | 0 <= i < |failed| ensures failed[i] !in unknown {
        CollectFinds(results, Failing, failed[i]);
        CollectFinds(results, Unknown, failed[i]);
      }
    }
    if Disjoint(failed, unknown) {
      forall r, s, d | r in results && s in results && Reports(r, d, Failing) ensures !Reports(s, d, Unknown) {
        CollectFinds(results, Failing, d);
        CollectFinds(results, Unknown, d);
      }
    }
  }

  /** The evaluation event is well formed exactly when the evaluators do not contradict each other. */
  lemma EvaluationEventValid(runId: Id, results: seq<EvaluationResult>, policy: EvaluationPolicy)
    requires ValidResults(results)
    ensures ValidData(EvaluationEvent(runId, results, policy)) <==> Agree(results)
  {
    CollectWithinLimit(results, Failing);
    CollectWithinLimit(results, Unknown);
    OutcomeMatchesDimensions(results);
    DisjointIffAgree(results);
    var ids := EvaluatorIds(results);
    forall i | 0 <= i < |ids| ensures Bounded(ids[i], 100) { assert results[i] in results; }
  }

  /** The built-in evaluator alone never contradicts itself. */
  lemma DeterministicAgrees(runId: Id, input: EvaluationInput, policy: EvaluationPolicy)
    ensures ValidResults([Evaluate(input)])
    ensures ValidData(EvaluationEvent(runId, [Evaluate(input)], policy))
    ensures input.runStatus != Completed ==> Aggregate([Evaluate(input)]) == EvaluationFailed
  {
    EvaluateIsValid(input);
    EvaluatesEach(input);
    OneAgrees(Evaluate(input));
    EvaluationEventValid(runId, [Evaluate(input)], policy);
    OneOutcome(Evaluate(input));
  }

  lemma OneAgrees(result: EvaluationResult)
    requires ValidResult(result)
    ensures Agree([result])
  {
    forall d | Reports(result, d, Failing) ensures !Reports(result, d, Unknown) {
      var i :| 0 <= i < |result.dimensions| && result.dimensions[i] == DimensionResult(d, Failing);
      forall j | 0 <= j < |result.dimensions| ensures result.dimensions[j] != DimensionResult(d, Unknown) {
        if j < i { assert result.dimensions[j].id != result.dimensions[i].id; }
      }
    }
  }

  lemma OneOutcome(result: EvaluationResult)
    ensures Aggregate([result]) == result.outcome
  {
    assert [result][0] == result;
  }

  lemma DistinctNames()
    ensures DETERMINISTIC_ID != "model-v1" && Bounded("model-v1", 100)
  {
    assert DETERMINISTIC_ID[0] == 'd' && "model-v1"[0] == 'm';
  }

  /** The result of an evaluator that reports one dimension. */
  function OnlyDimension(id: string, d: Dimension, v: Verdict): EvaluationResult {
    EvaluationResult(id, GetOutcome([DimensionResult(d, v)]), [DimensionResult(d, v)])
  }

  lemma OneDimension(id: string, d: Dimension, v: Verdict)
    requires Bounded(id, 100)
    ensures ValidResult(OnlyDimension(id, d, v)) && Reports(OnlyDimension(id, d, v), d, v)
  {
    assert [DimensionResult(d, v)][0] == DimensionResult(d, v);
  }

  /** A required test command failed. */
  predicate TestsFailed(input: EvaluationInput) {
    exists i :: 0 <= i < |input.commands| && Tests in input.commands[i].dimensions && input.commands[i].failed
  }

  lemma FailedTestsReported(input: EvaluationInput)
    requires TestsFailed(input)
    ensures Reports(Evaluate(input), Tests, Failing)
  {
    assert Evaluate(input).dimensions[1] == DimensionResult(Tests, EvaluateDimension(Tests, input));
  }

  /** The built-in evaluator's result for a run, and that of a second evaluator which cannot tell about the tests. */
  function TwoOpinions(input: EvaluationInput): seq<EvaluationResult> {
    [Evaluate(input), OnlyDimension("model-v1", Tests, Unknown)]
  }

  /** So two evaluators can have their event refused: for every run whose tests failed, a second evaluator
      that leaves the tests unknown is enough. */
  lemma ContradictionRefused(runId: Id, input: EvaluationInput, policy: EvaluationPolicy)
    requires TestsFailed(input)
    ensures ValidResults(TwoOpinions(input)) && !ValidData(EvaluationEvent(runId, TwoOpinions(input), policy))
  {
    DistinctNames();
    EvaluateIsValid(input);
    EvaluatesEach(input);
    OneDimension("model-v1", Tests, Unknown);
    FailedTestsReported(input);
    assert TwoOpinions(input)[0] in TwoOpinions(input) && TwoOpinions(input)[1] in TwoOpinions(input);
    EvaluationEventValid(runId, TwoOpinions(input), policy);
  }

  // ----- What the built-in evaluator objects to -----

  /** A required command that is evidence for the dimension failed. */
  predicate CommandFailed(input: EvaluationInput, d: Dimension) {
    exists i :: 0 <= i < |input.commands| && d in input.commands[i].dimensions && input.commands[i].failed
  }

  /** The run speaks against the dimension. */
  predicate Objects(d: Dimension, input: EvaluationInput) {
    || (d == WorkerExecution && input.runStatus != Completed)
    || (d in {Tests, Lint, Typecheck} && CommandFailed(input, d))
    || (d == ChangedFilesScope && (input.scopeViolationCount > 0 || input.changedFileCount > input.maxChangedFiles))
    || (d == AcceptanceCriteria && exists i :: 0 <= i < |input.criteria| && input.criteria[i] == Failing)
    || (d == PatchSize && (input.failureCode == Some("PATCH_TOO_LARGE") || input.failureCode == Some("ARTIFACT_FILE_TOO_LARGE")))
    || (d == PatchSize && input.patchBytes > input.maxPatchBytes)
    || (d == SecurityPolicyCompliance && input.policyViolationCount > 0)
  }

  /** The run leaves the dimension open. */
  predicate Doubts(d: Dimension, input: EvaluationInput) {
    || (d == AcceptanceCriteria && !Objects(d, input)
        && exists i :: 0 <= i < |input.criteria| && input.criteria[i] != Passed)
    || (d == NewWarnings && (input.warningCount > 0 || input.truncatedOutputCount > 0))
  }

  lemma CriteriaMean(input: EvaluationInput)
    ensures EvaluateCriteria(input.criteria) == Failing <==> Objects(AcceptanceCriteria, input)
    ensures EvaluateCriteria(input.criteria) == Unknown <==> Doubts(AcceptanceCriteria, input)
  {
    if input.criteria != [] { assert input.criteria[0] in input.criteria; }
  }

  lemma CommandsMean(d: Dimension, input: EvaluationInput)
    ensures EvaluateCommands(d, input.commands) == Failing <==> CommandFailed(input, d)
    ensures EvaluateCommands(d, input.commands) != Unknown
  {
  }

  lemma DimensionMeans(d: Dimension, input: EvaluationInput)
    requires d in DeterministicDimensions()
    ensures EvaluateDimension(d, input) == Failing <==> Objects(d, input)
    ensures EvaluateDimension(d, input) == Unknown <==> Doubts(d, input)
  {
    if d == AcceptanceCriteria {
      CriteriaMean(input);
    } else {
      CommandsMean(d, input);
    }
  }

  lemma ReportsEach(input: EvaluationInput, d: Dimension, v: Verdict)
    requires d in DeterministicDimensions()
    ensures Reports(Evaluate(input), d, v) <==> EvaluateDimension(d, input) == v
  {
    var ids, dimensions := DeterministicDimensions(), Evaluate(input).dimensions;
    var k :| 0 <= k < |ids| && ids[k] == d;
    assert dimensions[k] == DimensionResult(d, EvaluateDimension(d, input));
  }

  /** The built-in evaluator fails and doubts exactly the dimensions the run speaks against or leaves open,
      and its outcome follows: failed by any objection, else inconclusive by any doubt, else passed. */
  lemma EvaluationMeans(input: EvaluationInput)
    ensures forall d :: d in DeterministicDimensions() ==>
              && (Reports(Evaluate(input), d, Failing) <==> Objects(d, input))
              && (Reports(Evaluate(input), d, Unknown) <==> Doubts(d, input))
    ensures Evaluate(input).outcome == EvaluationFailed <==> exists d :: d in DeterministicDimensions() && Objects(d, input)
    ensures Evaluate(input).outcome == EvaluationInconclusive <==>
            && (forall d :: d in DeterministicDimensions() ==> !Objects(d, input))
            && (exists d :: d in DeterministicDimensions() && Doubts(d, input))
  {
    forall d | d in DeterministicDimensions()
      ensures Reports(Evaluate(input), d, Failing) <==> Objects(d, input)
      ensures Reports(Evaluate(input), d, Unknown) <==> Doubts(d, input)
    {
      DimensionMeans(d, input);
      ReportsEach(input, d, Failing);
      ReportsEach(input, d, Unknown);
    }
    HasReports(input, Failing);
    HasReports(input, Unknown);
  }

  lemma HasReports(input: EvaluationInput, v: Verdict)
    ensures Has(Evaluate(input).dimensions, v) <==>
            exists d :: d in DeterministicDimensions() && Reports(Evaluate(input), d, v)
  {
    var dimensions := Evaluate(input).dimensions;
    EvaluatesEach(input);
    if Has(dimensions, v) {
      var i :| 0 <= i < |dimensions| && dimensions[i].verdict == v;
      assert dimensions[i] == DimensionResult(DeterministicDimensions()[i], v);
      assert Reports(Evaluate(input), DeterministicDimensions()[i], v);
    }
  }
}
