/** One attempt at a task, apart from its journal: what its environment answers, and what becomes of it
    while no signal is raised and no write fails (src/worker/agent-loop.ts, src/worker/service.ts). */
module TaskAttempt {
  import opened Domain
  import opened Wrappers
  import opened TaskModel
  import opened TaskEvaluation

  const MAX_ITERATIONS := 64
  const MAX_TOTAL_TOOL_CALLS := 1_024

  /** Every HarnessError of the repository is raised with a literal code of at most 200 characters. */
  type Code = s: string | 0 < |s| <= 200 witness "WORKER_FAILED"

  /** A thrown value, as far as the service looks at it. */
  datatype Error = Coded(code: Code) | AbortError | TimeoutError | OtherError

  predicate IsPolicyCode(code: string) {
    Contains(code, "DENIED") || Contains(code, "NOT_ALLOWED") || EndsWith(code, "_LIMIT") || code == "READ_ONLY_TASK"
  }

  function ClassifyRunError(error: Error, aborted: bool, timedOut: bool): (s: RunStatus)
    ensures s != Completed && s != Blocked
    ensures s == Cancelled <==> aborted
  {
    if aborted then Cancelled
    else if timedOut || error.TimeoutError? then TimedOut
    else if error.Coded? && IsPolicyCode(error.code) then PolicyViolation
    else Failed
  }

  function GetFailureCode(error: Error): Code {
    match error
    case Coded(code) => code
    case AbortError => "WORKER_ABORTED"
    case _ => "WORKER_FAILED"
  }

  /** Without a signal a policy is violated exactly by a code that says so, or that names a limit. */
  lemma PolicyErrors(error: Error)
    ensures ClassifyRunError(error, false, false) == PolicyViolation <==>
            error.Coded?
            && (|| error.code == "READ_ONLY_TASK" || Contains(error.code, "DENIED") || Contains(error.code, "NOT_ALLOWED")
                || exists what :: error.code == what + "_LIMIT")
    ensures ClassifyRunError(error, false, false) == TimedOut <==> error.TimeoutError?
  {
    if error.Coded? && EndsWith(error.code, "_LIMIT") { assert error.code == error.code[..|error.code| - 6] + "_LIMIT"; }
  }

  /** An error is known by its own code, if it has one. */
  lemma CodesOfErrors(code: Code)
    ensures GetFailureCode(Coded(code)) == code && GetFailureCode(AbortError) == "WORKER_ABORTED"
    ensures GetFailureCode(TimeoutError) == GetFailureCode(OtherError) == "WORKER_FAILED"
  {
  }

  /** A fallback is for the errors of providers, and for the empty answer. */
  lemma FallbackCodes(code: string)
    ensures IsFallbackCode(Some(code)) <==> code == "WORKER_EMPTY_RESPONSE" || exists rest :: code == "PROVIDER_" + rest
  {
    if "PROVIDER_" <= code { assert code == "PROVIDER_" + code[9..]; }
  }

  /** `current ?? code` */
  function OrCode(current: Option<Code>, code: Code): Option<Code> {
    if current.Some? then current else Some(code)
  }

  // ----- The agent loop -----

  /** One answer of the provider: it throws, or it returns content (its size and whether it is blank)
      and named tool calls. */
  datatype Turn =
    | ProviderThrew(error: Error)
    | Answered(contentBytes: Option<nat>, blank: bool, toolCalls: seq<string>)

  datatype Limits = Limits(maxTotalToolCalls: nat, maxAssistantContentBytes: nat)

  function TurnError(turn: Turn, totalToolCalls: nat, limits: Limits): Option<Error> {
    match turn
    case ProviderThrew(error) => Some(error)
    case Answered(contentBytes, blank, toolCalls) =>
      if contentBytes.Some? && contentBytes.value > limits.maxAssistantContentBytes then
        Some(Coded("WORKER_ASSISTANT_CONTENT_LIMIT"))
      else if totalToolCalls + |toolCalls| > limits.maxTotalToolCalls then Some(Coded("WORKER_TOOL_CALL_LIMIT"))
      else if |toolCalls| == 0 && (contentBytes.None? || blank) then Some(Coded("WORKER_EMPTY_RESPONSE"))
      else None
  }

  // ----- The locals of an attempt -----

  /** The result of a command: no exit code if a signal ended it. */
  datatype CommandResult = CommandResult(exitCode: Option<int>, timedOut: bool)

  predicate HasFailed(r: CommandResult) {
    r.exitCode != Some(0) || r.timedOut
  }

  datatype CommandAnswer = Ran(result: CommandResult) | CommandThrew(error: Error)

  /** A patch as text; the empty one has zero bytes. */
  datatype PatchText = PatchText(sha256: nat, bytes: nat)

  const NO_PATCH := PatchText(0, 0)

  /** What the collection of a candidate finds in the worktree. */
  datatype Candidate = Candidate(changedFileCount: nat, patch: PatchText, violations: bool)

  /** The locals executeInWorktree updates as it goes. */
  datatype Locals = Locals(status: RunStatus, failureCode: Option<Code>, changedFileCount: nat, patch: PatchText)

  datatype Task = Task(implementation: bool, requiredCommandCount: nat, maxIterations: nat, limits: Limits,
                       evaluatorIds: seq<string>, policy: EvaluationPolicy)

  /** What config parsing, the task contract and assertEvaluatorSet have established. */
  predicate ValidTask(t: Task) {
    && t.requiredCommandCount <= 20
    && 1 <= t.maxIterations <= MAX_ITERATIONS
    && t.limits.maxTotalToolCalls <= MAX_TOTAL_TOOL_CALLS
    && 0 < |t.evaluatorIds| <= 8
    && t.evaluatorIds[0] == DETERMINISTIC_ID
    && Distinct(t.evaluatorIds)
  }

  predicate Coherent(s: Locals) {
    s.status == Completed <==> s.failureCode.None?
  }

  /** The evaluation's outcome goes with the status. */
  predicate Judged(s: Locals, outcome: EvaluationOutcome, policy: EvaluationPolicy) {
    && (s.status == Completed ==> outcome == EvaluationPassed || (outcome == EvaluationInconclusive && policy == DefaultPolicy))
    && (s.status != Completed && outcome != EvaluationFailed ==>
          && s.status == Failed && s.failureCode == Some("EVALUATION_INCONCLUSIVE")
          && outcome == EvaluationInconclusive && policy == StrictPolicy)
  }

  /** The catch blocks behind patch collection and the integrity check. */
  function AfterError(s: Locals, error: Error, aborted: bool, timedOut: bool): Locals {
    var status := ClassifyRunError(error, aborted, timedOut);
    s.(status := status,
       failureCode := if status == Cancelled || status == TimedOut then Some("WORKER_ABORTED")
                      else OrCode(s.failureCode, GetFailureCode(error)))
  }

  function AfterCollection(s: Locals, error: Option<Error>, violated: bool, aborted: bool, timedOut: bool): (t: Locals)
    requires Coherent(s)
    ensures Coherent(t) && t.changedFileCount == s.changedFileCount && t.patch == s.patch
    ensures t.status == Completed <==> s.status == Completed && error.None? && !violated
  {
    var u := if error.Some? then AfterError(s, error.value, aborted, timedOut) else s;
    if (violated || (error.Some? && u.status == PolicyViolation)) && u.status != Cancelled && u.status != TimedOut then
      u.(status := PolicyViolation, failureCode := OrCode(u.failureCode, "WORKER_POLICY_VIOLATION"))
    else u
  }

  /** The first n evaluators have answered, each validly and under its own name. */
  predicate Checked(results: seq<EvaluationResult>, evaluatorIds: seq<string>, n: nat) {
    && |results| == n <= |evaluatorIds|
    && forall j :: 0 <= j < n ==> ValidResult(results[j]) && results[j].evaluatorId == evaluatorIds[j]
  }

  lemma CheckedGrows(results: seq<EvaluationResult>, evaluatorIds: seq<string>, n: nat, r: EvaluationResult)
    requires Checked(results, evaluatorIds, n) && n < |evaluatorIds|
    requires ValidResult(r) && r.evaluatorId == evaluatorIds[n]
    ensures Checked(results + [r], evaluatorIds, n + 1)
  {
  }

  lemma CheckedIsValid(results: seq<EvaluationResult>, evaluatorIds: seq<string>, input: EvaluationInput)
    requires 0 < |evaluatorIds| <= 8 && evaluatorIds[0] == DETERMINISTIC_ID && Distinct(evaluatorIds)
    requires Checked(results, evaluatorIds, |evaluatorIds|) && results[0] == Evaluate(input)
    ensures ValidResults(results)
  {
    EvaluatesEach(input);
  }

  /** A run that did not complete fails its evaluation, whatever further evaluators say. */
  lemma OutcomeOfFirst(input: EvaluationInput, results: seq<EvaluationResult>)
    requires results != [] && results[0] == Evaluate(input)
    ensures input.runStatus != Completed ==> Aggregate(results) == EvaluationFailed
  {
    EvaluateIsValid(input);
    assert input.runStatus != Completed ==> results[0].outcome == EvaluationFailed;
  }

  /** What the evaluation makes of the run's status. */
  function Judge(s: Locals, outcome: EvaluationOutcome, policy: EvaluationPolicy): (t: Locals)
    requires Coherent(s) && (s.status != Completed ==> outcome == EvaluationFailed)
    ensures Coherent(t) && Judged(t, outcome, policy)
    ensures t.status == Completed ==> s == t
  {
    if s.status != Completed then s
    else if outcome == EvaluationFailed then s.(status := Failed, failureCode := Some("EVALUATION_FAILED"))
    else if policy == StrictPolicy && outcome == EvaluationInconclusive then
      s.(status := Failed, failureCode := Some("EVALUATION_INCONCLUSIVE"))
    else s
  }

  lemma FailedDimensionFails(results: seq<EvaluationResult>)
    requires ValidResults(results) && DimensionResult(PatchSize, Failing) in results[0].dimensions
    ensures Aggregate(results) == EvaluationFailed
  {
    assert results[0] in results;
    assert Has(results[0].dimensions, Failing);
  }

  // ----- The environment of one attempt -----

  /** Everything an attempt meets: whether its worktree could be made and seeded, the size of its context and
      the provider's answer at each turn, whether a tool was refused for the policy, what the collection finds,
      each required command and the dimensions it is evidence for, what the integrity check throws, what else
      the evaluators look at, and how the further ones answer. */
  datatype World = World(
    seeded: bool, contextExceeded: nat -> bool, turns: nat -> Turn, refusedTool: bool,
    collected: Result<Candidate, Error>, commands: nat -> CommandAnswer, evidenceOf: nat -> set<Dimension>,
    integrity: Option<Error>, input: EvaluationInput,
    evaluators: (nat, EvaluationInput) -> Result<EvaluationResult, Error>)

  /** The tool calls a turn asks for. */
  function Calls(turn: Turn): seq<string> {
    match turn case Answered(_, _, toolCalls) => toolCalls case ProviderThrew(_) => []
  }

  /** What ends the agent loop from this turn on; nothing if it finishes. */
  function LoopError(world: World, maxIterations: nat, limits: Limits, iteration: nat, total: nat): Option<Error>
    decreases maxIterations + 1 - iteration
  {
    if iteration > maxIterations then Some(Coded("WORKER_ITERATION_LIMIT"))
    else if world.contextExceeded(iteration) then Some(Coded("WORKER_CONTEXT_LIMIT"))
    else
      var turn := world.turns(iteration);
      var error := TurnError(turn, total, limits);
      if error.Some? || |Calls(turn)| == 0 then error
      else LoopError(world, maxIterations, limits, iteration + 1, total + |Calls(turn)|)
  }

  /** The turn asks for tools, within the limits. */
  predicate AsksForTools(turn: Turn, total: nat, limits: Limits) {
    && turn.Answered? && |turn.toolCalls| > 0 && total + |turn.toolCalls| <= limits.maxTotalToolCalls
    && (turn.contentBytes.Some? ==> turn.contentBytes.value <= limits.maxAssistantContentBytes)
  }

  /** The turn is a final answer: text, within the limit, and no tool calls. */
  predicate Answers(turn: Turn, limits: Limits) {
    && turn.Answered? && turn.toolCalls == [] && !turn.blank
    && turn.contentBytes.Some? && turn.contentBytes.value <= limits.maxAssistantContentBytes
  }

  /** A turn is in order exactly if it asks for tools or answers. Otherwise the provider's error, the size of
      the text, the number of calls, and the empty answer are objected to, in this order. */
  lemma TurnErrorMeans(turn: Turn, total: nat, limits: Limits)
    requires total <= limits.maxTotalToolCalls
    ensures var error := TurnError(turn, total, limits);
            && (error.None? <==> AsksForTools(turn, total, limits) || Answers(turn, limits))
            && (turn.ProviderThrew? ==> error == Some(turn.error))
            && (turn.Answered? && turn.contentBytes.Some? && turn.contentBytes.value > limits.maxAssistantContentBytes ==>
                  error == Some(Coded("WORKER_ASSISTANT_CONTENT_LIMIT")))
            && (turn.Answered? && turn.toolCalls == [] && (turn.contentBytes.None? || turn.blank)
                && (turn.contentBytes.Some? ==> turn.contentBytes.value <= limits.maxAssistantContentBytes) ==>
                  error == Some(Coded("WORKER_EMPTY_RESPONSE")))
            && (turn.Answered? && (turn.contentBytes.Some? ==> turn.contentBytes.value <= limits.maxAssistantContentBytes)
                && total + |turn.toolCalls| > limits.maxTotalToolCalls ==>
                  error == Some(Coded("WORKER_TOOL_CALL_LIMIT")))
  {
  }

  /** The tool calls of the turns from one up to another. */
  function CallsBetween(world: World, from: nat, to: nat): nat
    decreases to - from
  {
    if from >= to then 0 else |Calls(world.turns(from))| + CallsBetween(world, from + 1, to)
  }

  /** The loop finishes with turn n. */
  ghost predicate FinishesAt(world: World, maxIterations: nat, limits: Limits, iteration: nat, total: nat, n: nat) {
    && iteration <= n <= maxIterations && Answers(world.turns(n), limits)
    && (forall k :: iteration <= k <= n ==> !world.contextExceeded(k))
    && (forall k :: iteration <= k < n ==>
          AsksForTools(world.turns(k), total + CallsBetween(world, iteration, k), limits))
  }

  /** The loop finishes exactly if some turn within its limit is a final answer, every earlier one asks for
      tools within the limits, and the context never grows too large. */
  lemma {:induction false} LoopFinishes(world: World, maxIterations: nat, limits: Limits, iteration: nat, total: nat)
    requires total <= limits.maxTotalToolCalls
    ensures LoopError(world, maxIterations, limits, iteration, total).None? <==>
            exists n :: FinishesAt(world, maxIterations, limits, iteration, total, n)
    decreases maxIterations + 1 - iteration
  {
    if iteration <= maxIterations && !world.contextExceeded(iteration) {
      var turn := world.turns(iteration);
      TurnErrorMeans(turn, total, limits);
      if AsksForTools(turn, total, limits) {
        var next, more := iteration + 1, total + |Calls(turn)|;
        LoopFinishes(world, maxIterations, limits, next, more);
        if n :| FinishesAt(world, maxIterations, limits, iteration, total, n) {
          FinishesLater(world, maxIterations, limits, iteration, total, n);
          assert FinishesAt(world, maxIterations, limits, next, more, n);
        }
        if n :| FinishesAt(world, maxIterations, limits, next, more, n) {
          FinishesLater(world, maxIterations, limits, iteration, total, n);
          assert FinishesAt(world, maxIterations, limits, iteration, total, n);
        }
      } else if Answers(turn, limits) {
        assert FinishesAt(world, maxIterations, limits, iteration, total, iteration);
      } else {
        NeverFinishes(world, maxIterations, limits, iteration, total);
      }
    } else {
      NeverFinishes(world, maxIterations, limits, iteration, total);
    }
  }

  lemma NeverFinishes(world: World, maxIterations: nat, limits: Limits, iteration: nat, total: nat)
    requires iteration > maxIterations || world.contextExceeded(iteration)
             || (!AsksForTools(world.turns(iteration), total, limits) && !Answers(world.turns(iteration), limits))
    ensures forall n :: !FinishesAt(world, maxIterations, limits, iteration, total, n)
  {
    forall n ensures !FinishesAt(world, maxIterations, limits, iteration, total, n) {
      assert CallsBetween(world, iteration, iteration) == 0;
    }
  }

  lemma FinishesLater(world: World, maxIterations: nat, limits: Limits, iteration: nat, total: nat, n: nat)
    requires !world.contextExceeded(iteration) && AsksForTools(world.turns(iteration), total, limits)
    ensures FinishesAt(world, maxIterations, limits, iteration, total, n)
       <==> FinishesAt(world, maxIterations, limits, iteration + 1, total + |Calls(world.turns(iteration))|, n)
  {
    assert CallsBetween(world, iteration, iteration) == 0;
    forall k | iteration < k
      ensures CallsBetween(world, iteration, k) == |Calls(world.turns(iteration))| + CallsBetween(world, iteration + 1, k)
    {
    }
  }

  // ----- What stops an attempt -----

  /** The patch that the journal cannot record. */
  predicate UnrecordablePatch(c: Candidate) {
    !c.violations && c.patch.bytes > 0 && !(1 <= c.changedFileCount <= 10_000)
  }

  /** The collection finds nothing to object to. */
  predicate CollectsCleanly(world: World) {
    !world.refusedTool && world.collected.Ok? && !world.collected.value.violations && !UnrecordablePatch(world.collected.value)
  }

  /** What ends the agent loop of the attempt. */
  function LoopEnds(task: Task, world: World): Option<Error> {
    LoopError(world, task.maxIterations, task.limits, 1, 0)
  }

  /** The code behind the collection, given the one before. */
  function CollectionCode(world: World, before: Option<Code>): Option<Code> {
    match world.collected
    case Err(error) => if error.TimeoutError? then Some("WORKER_ABORTED") else OrCode(before, GetFailureCode(error))
    case Ok(c) =>
      if UnrecordablePatch(c) then OrCode(before, "INVALID_TASK_JOURNAL")
      else if world.refusedTool || c.violations then OrCode(before, "WORKER_POLICY_VIOLATION")
      else before
  }

  /** What the first of n commands to throw throws. */
  function CommandError(world: World, n: nat): Option<Error> {
    if n == 0 then None
    else if CommandError(world, n - 1).Some? then CommandError(world, n - 1)
    else if world.commands(n - 1).CommandThrew? then Some(world.commands(n - 1).error)
    else None
  }

  lemma {:induction false} NoCommandError(world: World, n: nat)
    ensures CommandError(world, n).None? <==> forall k :: 0 <= k < n ==> world.commands(k).Ran?
  {
    if n > 0 { NoCommandError(world, n - 1); }
  }

  lemma {:induction false} ThrowsFirst(world: World, k: nat, n: nat)
    requires k < n && CommandError(world, k).None? && world.commands(k).CommandThrew?
    ensures CommandError(world, n) == Some(world.commands(k).error)
  {
    if k < n - 1 { ThrowsFirst(world, k, n - 1); }
  }

  predicate SomeCommandFailed(world: World, n: nat) {
    exists k :: 0 <= k < n && world.commands(k).Ran? && HasFailed(world.commands(k).result)
  }

  /** The container of a command may still be running, so its worktree is left alone. */
  predicate LosesWorktree(world: World, required: nat) {
    CommandError(world, required) == Some(Coded("DOCKER_CONTAINER_CLEANUP_FAILED"))
  }

  /** The integrity check is made, and throws. */
  function IntegrityError(world: World, required: nat): Option<Error> {
    if required == 0 || LosesWorktree(world, required) then None else world.integrity
  }

  function CommandCode(world: World, required: nat): Option<Code> {
    var thrown, changed := CommandError(world, required), IntegrityError(world, required);
    if changed == Some(TimeoutError) then Some("WORKER_ABORTED")
    else if thrown.Some? then Some(GetFailureCode(thrown.value))
    else if changed.Some? then Some(GetFailureCode(changed.value))
    else if SomeCommandFailed(world, required) then Some("VALIDATION_COMMAND_FAILED")
    else None
  }

  lemma CommandsPass(world: World, required: nat)
    ensures CommandCode(world, required).None? <==>
            && (forall k :: 0 <= k < required ==>
                  world.commands(k).Ran? && world.commands(k).result.exitCode == Some(0) && !world.commands(k).result.timedOut)
            && (required > 0 ==> world.integrity.None?)
  {
    NoCommandError(world, required);
    if CommandError(world, required).None? && !SomeCommandFailed(world, required) {
      forall k | 0 <= k < required
        ensures world.commands(k).result.exitCode == Some(0) && !world.commands(k).result.timedOut
      {
        assert world.commands(k).Ran?;
      }
    }
  }

  /** What the evaluators are shown of a run with these locals and command results. */
  function InputOf(task: Task, world: World, s: Locals, ran: seq<CommandResult>): EvaluationInput {
    world.input.(
      runStatus := s.status, failureCode := s.failureCode, changedFileCount := s.changedFileCount, patchBytes := s.patch.bytes,
      commands := seq(task.requiredCommandCount, k requires 0 <= k < task.requiredCommandCount =>
        CommandEvidence(world.evidenceOf(k), k >= |ran| || HasFailed(ran[k]))))
  }

  /** An evaluator answers, validly and under its own name. */
  predicate EvaluatorAnswers(world: World, evaluatorIds: seq<string>, k: nat, input: EvaluationInput)
    requires k < |evaluatorIds|
  {
    var answer := world.evaluators(k, input);
    answer.Ok? && ValidResult(answer.value) && answer.value.evaluatorId == evaluatorIds[k]
  }

  /** And so do all behind the built-in one. */
  predicate EvaluatorsAnswer(world: World, evaluatorIds: seq<string>, input: EvaluationInput) {
    forall k :: 1 <= k < |evaluatorIds| ==> EvaluatorAnswers(world, evaluatorIds, k, input)
  }

  function AnswerOf(world: World, k: nat, input: EvaluationInput): EvaluationResult
    requires k > 0 ==> world.evaluators(k, input).Ok?
  {
    if k == 0 then Evaluate(input) else world.evaluators(k, input).value
  }

  function ResultsOf(world: World, evaluatorIds: seq<string>, input: EvaluationInput): (results: seq<EvaluationResult>)
    requires EvaluatorsAnswer(world, evaluatorIds, input)
    ensures |results| == |evaluatorIds|
  {
    seq(|evaluatorIds|, k requires 0 <= k < |evaluatorIds| =>
      assert k > 0 ==> EvaluatorAnswers(world, evaluatorIds, k, input);
      AnswerOf(world, k, input))
  }

  function EvaluationCode(outcome: EvaluationOutcome, policy: EvaluationPolicy): Option<Code> {
    match outcome
    case EvaluationFailed => Some("EVALUATION_FAILED")
    case EvaluationInconclusive => if policy == StrictPolicy then Some("EVALUATION_INCONCLUSIVE") else None
    case EvaluationPassed => None
  }

  /** The run as it stands before its evaluation, if nothing has stopped it. */
  function Unstopped(c: Candidate): Locals {
    Locals(Completed, None, c.changedFileCount, c.patch)
  }

  function ResultsUpTo(world: World, n: nat): (ran: seq<CommandResult>)
    requires forall k :: 0 <= k < n ==> world.commands(k).Ran?
    ensures |ran| == n && forall k :: 0 <= k < n ==> ran[k] == world.commands(k).result
  {
    seq(n, k requires 0 <= k < n => world.commands(k).result)
  }

  /** An implementation that changed nothing is blocked. */
  function AfterChanges(task: Task, s: Locals): Locals {
    if task.implementation && s.changedFileCount == 0 && s.status == Completed then
      s.(status := Blocked, failureCode := OrCode(s.failureCode, "WORKER_NO_CHANGES"))
    else s
  }

  /** The worktree can be made, and every evaluator answers whatever run it is shown. */
  ghost predicate Reliable(task: Task, world: World) {
    world.seeded && forall input :: EvaluatorsAnswer(world, task.evaluatorIds, input)
  }

  ghost predicate AllReliable(tasks: seq<Task>, worlds: seq<World>) {
    |tasks| == |worlds| && forall k :: 0 <= k < |worlds| ==> Reliable(tasks[k], worlds[k])
  }

  /** The code behind the evaluation of a run with these locals and command results. An evaluator that does
      not answer ends the attempt without a report. */
  function JudgedCode(task: Task, world: World, s: Locals, ran: seq<CommandResult>): Option<Code> {
    if s.failureCode.Some? then s.failureCode
    else if task.implementation && s.changedFileCount == 0 then Some("WORKER_NO_CHANGES")
    else if EvaluatorsAnswer(world, task.evaluatorIds, InputOf(task, world, s, ran)) then
      EvaluationCode(Aggregate(ResultsOf(world, task.evaluatorIds, InputOf(task, world, s, ran))), task.policy)
    else None
  }

  /** The code of an attempt whose agent loop left this one. */
  function TroubleBehind(task: Task, world: World, loop: Option<Code>): Option<Code> {
    var collection := CollectionCode(world, loop);
    var commands := CommandCode(world, task.requiredCommandCount);
    if collection.Some? then collection
    else if commands.Some? then commands
    else
      CommandsPass(world, task.requiredCommandCount);
      JudgedCode(task, world, Unstopped(world.collected.value), ResultsUpTo(world, task.requiredCommandCount))
  }

  /** So the code behind the evaluation is the one told by the locals behind the collection and the commands. */
  lemma CodeBehind(task: Task, world: World, loop: Option<Code>, collected: Locals, validated: Locals, ran: seq<CommandResult>)
    requires Coherent(collected) && Coherent(validated) && collected.failureCode == CollectionCode(world, loop)
    requires if collected.status == Completed then
               world.collected.Ok? && collected == Unstopped(world.collected.value)
               && validated.failureCode == CommandCode(world, task.requiredCommandCount)
             else validated == collected
    requires validated.status == Completed ==>
               && validated == collected && |ran| == task.requiredCommandCount
               && forall k :: 0 <= k < |ran| ==> world.commands(k) == Ran(ran[k])
    ensures JudgedCode(task, world, validated, ran) == TroubleBehind(task, world, loop)
  {
    if validated.status == Completed {
      CommandsPass(world, task.requiredCommandCount);
      assert ran == ResultsUpTo(world, task.requiredCommandCount);
    }
  }

  /** The failure code of an attempt that no signal and no failed write disturbs. */
  function Trouble(task: Task, world: World): Option<Code> {
    var loop := LoopEnds(task, world);
    TroubleBehind(task, world, if loop.Some? then Some(GetFailureCode(loop.value)) else None)
  }

  /** The attempt has all that it takes to complete. */
  ghost predicate Flawless(task: Task, world: World) {
    && (exists n :: FinishesAt(world, task.maxIterations, task.limits, 1, 0, n))
    && CollectsCleanly(world)
    && (forall k :: 0 <= k < task.requiredCommandCount ==>
          world.commands(k).Ran? && world.commands(k).result.exitCode == Some(0) && !world.commands(k).result.timedOut)
    && (task.requiredCommandCount > 0 ==> world.integrity.None?)
    && (task.implementation ==> world.collected.value.changedFileCount > 0)
  }

  /** And the evaluators, shown the run, let it pass. */
  ghost predicate Passes(task: Task, world: World)
    requires world.collected.Ok? && forall k :: 0 <= k < task.requiredCommandCount ==> world.commands(k).Ran?
  {
    var input := InputOf(task, world, Unstopped(world.collected.value), ResultsUpTo(world, task.requiredCommandCount));
    && EvaluatorsAnswer(world, task.evaluatorIds, input)
    && var outcome := Aggregate(ResultsOf(world, task.evaluatorIds, input));
       outcome == EvaluationPassed || (outcome == EvaluationInconclusive && task.policy == DefaultPolicy)
  }

  /** Where every evaluator answers, nothing is in the way exactly of a flawless attempt whose evaluators let it
      pass. */
  lemma NoTrouble(task: Task, world: World)
    requires Reliable(task, world)
    ensures Trouble(task, world).None? <==> Flawless(task, world) && Passes(task, world)
  {
    LoopFinishes(world, task.maxIterations, task.limits, 1, 0);
    CommandsPass(world, task.requiredCommandCount);
  }

  /** A failed command is all it takes: without earlier trouble it is what the attempt fails for. */
  lemma FailedCommandIsReported(task: Task, world: World, k: nat)
    requires LoopEnds(task, world).None? && CollectsCleanly(world)
    requires world.integrity.None? && forall j :: 0 <= j < task.requiredCommandCount ==> world.commands(j).Ran?
    requires k < task.requiredCommandCount && HasFailed(world.commands(k).result)
    ensures Trouble(task, world) == Some("VALIDATION_COMMAND_FAILED")
  {
    NoCommandError(world, task.requiredCommandCount);
    assert world.commands(k).Ran?;
  }
}
