/** What a route prefers: the order of its candidates, what each strategy asks for first, and which way the
    past speaks (src/provider/router.ts). */
module RouterPreference {
  import opened Wrappers
  import opened Router
  import opened RouterOrder

  // ----- Tiers -----

  predicate Cheaper(a: CostTier, b: CostTier) {
    (a.LowCost? && !b.LowCost?) || (a.MediumCost? && b.HighCost?)
  }

  predicate Faster(a: LatencyTier, b: LatencyTier) {
    (a.Fast? && !b.Fast?) || (a.Standard? && b.Slow?)
  }

  lemma RanksOrderTiers(c: CostTier, d: CostTier, l: LatencyTier, m: LatencyTier)
    ensures CostRank(c) < CostRank(d) <==> Cheaper(c, d)
    ensures LatencyRank(l) < LatencyRank(m) <==> Faster(l, m)
  {
  }

  /** With equal priorities, cost looks at the cost first and then at the latency. */
  lemma CostAsksForCheap(a: Worker, b: Worker)
    requires a.priority == b.priority
    ensures BaseScore(a, Cost) > BaseScore(b, Cost) <==>
            Cheaper(a.costTier, b.costTier) || (a.costTier == b.costTier && Faster(a.latencyTier, b.latencyTier))
  {
  }

  /** Latency looks at the latency first and then at the cost. */
  lemma LatencyAsksForFast(a: Worker, b: Worker)
    requires a.priority == b.priority
    ensures BaseScore(a, Latency) > BaseScore(b, Latency) <==>
            Faster(a.latencyTier, b.latencyTier) || (a.latencyTier == b.latencyTier && Cheaper(a.costTier, b.costTier))
  {
  }

  /** Balanced trades one for the other: what is cheaper and not slower, or faster and not dearer, is better,
      and a step of cost is worth a step of latency. */
  lemma BalancedAsksForBoth(a: Worker, b: Worker)
    requires a.priority == b.priority
    ensures Cheaper(a.costTier, b.costTier) && !Faster(b.latencyTier, a.latencyTier) ==>
              BaseScore(a, Balanced) > BaseScore(b, Balanced)
    ensures Faster(a.latencyTier, b.latencyTier) && !Cheaper(b.costTier, a.costTier) ==>
              BaseScore(a, Balanced) > BaseScore(b, Balanced)
    ensures a.costTier == LowCost && b.costTier == HighCost && a.latencyTier == Slow && b.latencyTier == Fast ==>
              BaseScore(a, Balanced) == BaseScore(b, Balanced)
  {
  }

  /** Quality looks at the priority alone. */
  lemma QualityAsksForPriority(a: Worker, b: Worker)
    ensures BaseScore(a, Quality) > BaseScore(b, Quality) <==> a.priority > b.priority
  {
  }

  /** Under every strategy the priority decides between equals, and one point of it is worth 100. */
  lemma PriorityDecides(a: Worker, b: Worker, s: Strategy)
    requires a.costTier == b.costTier && a.latencyTier == b.latencyTier
    ensures BaseScore(a, s) > BaseScore(b, s) <==> a.priority > b.priority
    ensures s != Quality ==> BaseScore(a, s) - BaseScore(b, s) == 100 * (a.priority - b.priority)
  {
  }

  // ----- The order -----

  /** The order on worker ids is a strict total one. */
  ghost predicate Orders(idOrder: IdOrder) {
    && (forall a, b :: idOrder(a, b) ==> !idOrder(b, a))
    && (forall a, b :: a != b ==> idOrder(a, b) || idOrder(b, a))
    && (forall a, b, c :: idOrder(a, b) && idOrder(b, c) ==> idOrder(a, c))
  }

  lemma PrecedesIsTotal(a: Candidate, b: Candidate, preferred: Option<string>, idOrder: IdOrder)
    requires Orders(idOrder) && a.worker.id != b.worker.id
    ensures Precedes(a, b, preferred, idOrder) <==> !Precedes(b, a, preferred, idOrder)
  {
  }

  lemma PrecedesIsTransitive(a: Candidate, b: Candidate, c: Candidate, preferred: Option<string>, idOrder: IdOrder)
    requires Orders(idOrder) && a.worker.id != c.worker.id
    requires Precedes(a, b, preferred, idOrder) && Precedes(b, c, preferred, idOrder)
    ensures Precedes(a, c, preferred, idOrder)
  {
  }

  ghost predicate Sorted(candidates: seq<Candidate>, preferred: Option<string>, idOrder: IdOrder) {
    forall i, j :: 0 <= i < j < |candidates| ==> Precedes(candidates[i], candidates[j], preferred, idOrder)
  }

  lemma {:induction false} InsertSorts(c: Candidate, sorted: seq<Candidate>, preferred: Option<string>, idOrder: IdOrder)
    requires Orders(idOrder) && Sorted(sorted, preferred, idOrder)
    requires DistinctWorkers(sorted) && forall i :: 0 <= i < |sorted| ==> sorted[i].worker.id != c.worker.id
    ensures Sorted(Insert(c, sorted, preferred, idOrder), preferred, idOrder)
  {
    if sorted == [] {
    } else if Precedes(c, sorted[0], preferred, idOrder) {
      forall i | 0 < i < |sorted| ensures Precedes(c, sorted[i], preferred, idOrder) {
        PrecedesIsTransitive(c, sorted[0], sorted[i], preferred, idOrder);
      }
    } else {
      var rest := Insert(c, sorted[1..], preferred, idOrder);
      InsertSorts(c, sorted[1..], preferred, idOrder);
      InsertStaysDistinct(c, sorted[1..], preferred, idOrder);
      PrecedesIsTotal(c, sorted[0], preferred, idOrder);
      forall i | 0 <= i < |rest| ensures Precedes(sorted[0], rest[i], preferred, idOrder) {
        assert rest[i] in rest;
        if rest[i] != c {
          var j :| 0 <= j < |sorted[1..]| && sorted[1..][j] == rest[i];
          assert Precedes(sorted[0], sorted[j + 1], preferred, idOrder);
        }
      }
    }
  }

  /** The candidates come out in order. */
  lemma {:induction false} SortSorts(candidates: seq<Candidate>, preferred: Option<string>, idOrder: IdOrder)
    requires Orders(idOrder) && DistinctWorkers(candidates)
    ensures Sorted(Sort(candidates, preferred, idOrder), preferred, idOrder)
  {
    if candidates != [] {
      var rest := Sort(candidates[1..], preferred, idOrder);
      SortSorts(candidates[1..], preferred, idOrder);
      SortStaysDistinct(candidates[1..], preferred, idOrder);
      forall i | 0 <= i < |rest| ensures rest[i].worker.id != candidates[0].worker.id {
        assert rest[i] in rest;
        var j :| 0 <= j < |candidates[1..]| && candidates[1..][j] == rest[i];
        assert candidates[j + 1] == rest[i];
      }
      InsertSorts(candidates[0], rest, preferred, idOrder);
    }
  }

  /** Worker a is offered before worker b. */
  ghost predicate OfferedBefore(candidates: seq<Candidate>, a: Worker, b: Worker) {
    exists i, j :: 0 <= i < j < |candidates| && candidates[i].worker == a && candidates[j].worker == b
  }

  /** A candidate that precedes another is offered before it. */
  lemma PrecedingIsBefore(candidates: seq<Candidate>, preferred: Option<string>, idOrder: IdOrder, a: nat, b: nat)
    requires Orders(idOrder) && DistinctWorkers(candidates) && a < |candidates| && b < |candidates|
    requires Precedes(candidates[a], candidates[b], preferred, idOrder)
    ensures OfferedBefore(Sort(candidates, preferred, idOrder), candidates[a].worker, candidates[b].worker)
  {
    var sorted := Sort(candidates, preferred, idOrder);
    SortSorts(candidates, preferred, idOrder);
    SortStaysDistinct(candidates, preferred, idOrder);
    assert candidates[a] in sorted && candidates[b] in sorted;
    var i :| 0 <= i < |sorted| && sorted[i] == candidates[a];
    var j :| 0 <= j < |sorted| && sorted[j] == candidates[b];
    PrecedesIsTotal(candidates[a], candidates[b], preferred, idOrder);
  }

  // ----- The route -----

  /** What a strategy asks for first. */
  predicate Suits(s: Strategy, a: Worker, b: Worker) {
    match s
    case Cost => a.priority == b.priority && Cheaper(a.costTier, b.costTier)
    case Latency => a.priority == b.priority && Faster(a.latencyTier, b.latencyTier)
    case Quality => a.priority > b.priority
    case Balanced =>
      && a.priority == b.priority
      && (|| (Cheaper(a.costTier, b.costTier) && !Faster(b.latencyTier, a.latencyTier))
          || (Faster(a.latencyTier, b.latencyTier) && !Cheaper(b.costTier, a.costTier)))
  }

  lemma SuitedScoresHigher(s: Strategy, a: Worker, b: Worker)
    requires Suits(s, a, b)
    ensures BaseScore(a, s) > BaseScore(b, s)
  {
    match s {
      case Cost => CostAsksForCheap(a, b);
      case Latency => LatencyAsksForFast(a, b);
      case Quality => QualityAsksForPriority(a, b);
      case Balanced => BalancedAsksForBoth(a, b);
    }
  }

  /** Without evidence, and where neither is preferred or the default, the worker that suits the strategy
      better is offered first. */
  lemma SuitedIsOfferedFirst(workers: seq<Worker>, s: Strategy, preferred: Option<string>, default_: Option<string>,
                             idOrder: IdOrder, a: nat, b: nat)
    requires Orders(idOrder) && DistinctIdsOf(workers) && a < |workers| && b < |workers|
    requires Some(workers[b].id) != preferred && Some(workers[b].id) != default_
    requires Suits(s, workers[a], workers[b])
    ensures OfferedBefore(Ranking(workers, s, preferred, default_, map[], idOrder), workers[a], workers[b])
  {
    var declared := Declared(workers, s, default_);
    var adjusted := AdjustAll(declared, s, map[]);
    SuitedScoresHigher(s, workers[a], workers[b]);
    assert adjusted[a] == declared[a] && adjusted[b] == declared[b];
    assert workers[a].id != workers[b].id;
    PrecedingIsBefore(adjusted, preferred, idOrder, a, b);
  }

  /** Who qualifies: a configured worker of this role or of none, that can do all that is asked and is neither
      dearer nor slower than the policy allows. */
  lemma QualifiesMeans(w: Worker, mode: string, required: set<string>, policy: Policy)
    ensures Satisfies(w, mode, required, policy) <==>
            && w.configured && (w.role.Some? ==> w.role.value == mode)
            && (forall c :: c in required ==> c in w.capabilities)
            && (policy.maxCostTier.Some? ==> !Cheaper(policy.maxCostTier.value, w.costTier))
            && (policy.maxLatencyTier.Some? ==> !Faster(policy.maxLatencyTier.value, w.latencyTier))
  {
  }

  lemma {:induction false} IndexOf(workers: seq<Worker>, w: Worker) returns (i: nat)
    requires w in workers
    ensures i < |workers| && workers[i] == w
  {
    i :| 0 <= i < |workers| && workers[i] == w;
  }

  /** The whole route: it offers every worker that qualifies, those that suit the strategy first, and as many
      attempts as the policy, the configuration and the candidates allow. */
  lemma RouteMeans(workers: seq<Worker>, mode: string, policy: Policy, defaultWorkerId: Option<string>,
                   maxAttempts: nat, idOrder: IdOrder, a: Worker, b: Worker)
    requires Orders(idOrder) && DistinctIdsOf(workers)
    requires policy.preferredWorkerId.Some? ==>
               exists w :: w in workers && w.id == policy.preferredWorkerId.value
                           && Satisfies(w, mode, {mode, "tool-calling"} + policy.requiredCapabilities, policy)
    requires a in workers && Satisfies(a, mode, {mode, "tool-calling"} + policy.requiredCapabilities, policy)
    requires b in workers && Satisfies(b, mode, {mode, "tool-calling"} + policy.requiredCapabilities, policy)
    requires Suits(policy.strategy, a, b) && Some(b.id) != policy.preferredWorkerId && Some(b.id) != defaultWorkerId
    ensures var route := RouteWorkers(workers, mode, policy, defaultWorkerId, maxAttempts, None, idOrder);
            && route.Ok? && OfferedBefore(route.value.candidates, a, b)
            && route.value.fallbackEnabled == policy.allowFallback
            && route.value.maxAttempts <= |route.value.candidates|
  {
    var required := {mode, "tool-calling"} + policy.requiredCapabilities;
    var qualified := Qualified(workers, mode, required, policy);
    QualifiedStayDistinct(workers, mode, required, policy);
    PreferredQualifies(workers, mode, required, policy);
    var i := IndexOf(qualified, a);
    var j := IndexOf(qualified, b);
    var default_ := if policy.preferredWorkerId.Some? then policy.preferredWorkerId else defaultWorkerId;
    SuitedIsOfferedFirst(qualified, policy.strategy, policy.preferredWorkerId, default_, idOrder, i, j);
    RankingHasAll(qualified, policy.strategy, policy.preferredWorkerId, default_, map[], idOrder);
  }

  /** No other worker bears the preferred id. */
  lemma PreferredQualifies(workers: seq<Worker>, mode: string, required: set<string>, policy: Policy)
    requires DistinctIdsOf(workers)
    requires policy.preferredWorkerId.Some? ==>
               exists w :: w in workers && w.id == policy.preferredWorkerId.value && Satisfies(w, mode, required, policy)
    ensures !exists w :: w in workers && Some(w.id) == policy.preferredWorkerId && !Satisfies(w, mode, required, policy)
  {
    if policy.preferredWorkerId.Some? {
      var w :| w in workers && w.id == policy.preferredWorkerId.value && Satisfies(w, mode, required, policy);
      var i := IndexOf(workers, w);
      forall v | v in workers && Some(v.id) == policy.preferredWorkerId ensures v == w {
        var j := IndexOf(workers, v);
      }
    }
  }

  /** So many attempts: one without fallback, and otherwise as many as every limit allows. */
  lemma AttemptsOfRoute(workers: seq<Worker>, mode: string, policy: Policy, defaultWorkerId: Option<string>,
                        maxAttempts: nat, evidence: Option<(string, EvidenceByWorker)>, idOrder: IdOrder)
    requires DistinctIdsOf(workers) && (evidence.Some? ==> AllPossible(evidence.value.1))
    requires RouteWorkers(workers, mode, policy, defaultWorkerId, maxAttempts, evidence, idOrder).Ok?
    ensures var route := RouteWorkers(workers, mode, policy, defaultWorkerId, maxAttempts, evidence, idOrder).value;
            && (route.fallbackEnabled <==> policy.allowFallback && |route.candidates| > 1)
            && (!route.fallbackEnabled ==> route.maxAttempts == 1)
            && (route.fallbackEnabled ==>
                  && route.maxAttempts <= policy.maxAttempts && route.maxAttempts <= maxAttempts
                  && route.maxAttempts <= |route.candidates|
                  && route.maxAttempts in {policy.maxAttempts, maxAttempts, |route.candidates|})
  {
  }

  /** The policy's preferred worker is there, and qualifies. */
  ghost predicate PreferenceHolds(workers: seq<Worker>, mode: string, required: set<string>, policy: Policy) {
    policy.preferredWorkerId.Some? ==>
      exists w :: w in workers && w.id == policy.preferredWorkerId.value && Satisfies(w, mode, required, policy)
  }

  /** Why there is no route, in this order: the evidence is about another mode, nobody bears the preferred id,
      the worker that does does not qualify, or nobody qualifies. */
  lemma NoRoute(workers: seq<Worker>, mode: string, policy: Policy, defaultWorkerId: Option<string>,
                maxAttempts: nat, evidence: Option<(string, EvidenceByWorker)>, idOrder: IdOrder)
    requires DistinctIdsOf(workers) && (evidence.Some? ==> AllPossible(evidence.value.1))
    ensures var required := {mode, "tool-calling"} + policy.requiredCapabilities;
            var route := RouteWorkers(workers, mode, policy, defaultWorkerId, maxAttempts, evidence, idOrder);
            var sameMode := evidence.Some? ==> evidence.value.0 == mode;
            var found := policy.preferredWorkerId.Some? ==> exists w :: w in workers && w.id == policy.preferredWorkerId.value;
            && (route == Err(EvidenceModeMismatch) <==> !sameMode)
            && (route == Err(WorkerNotFound) <==> sameMode && !found)
            && (route == Err(WorkerDoesNotSatisfyRoute) <==>
                  sameMode && found && !PreferenceHolds(workers, mode, required, policy))
            && (route == Err(NoWorkerRoute) <==>
                  sameMode && PreferenceHolds(workers, mode, required, policy)
                  && forall w :: w in workers ==> !Satisfies(w, mode, required, policy))
  {
    var required := {mode, "tool-calling"} + policy.requiredCapabilities;
    var qualified := Qualified(workers, mode, required, policy);
    QualifiedStayDistinct(workers, mode, required, policy);
    RankingHasAll(qualified, policy.strategy, policy.preferredWorkerId,
                  if policy.preferredWorkerId.Some? then policy.preferredWorkerId else defaultWorkerId,
                  if evidence.Some? then evidence.value.1 else map[], idOrder);
    PreferredIsOne(workers, mode, required, policy);
    if qualified != [] { assert qualified[0] in qualified; }
  }

  lemma PreferredIsOne(workers: seq<Worker>, mode: string, required: set<string>, policy: Policy)
    requires DistinctIdsOf(workers)
    ensures PreferenceHolds(workers, mode, required, policy) ==>
              !exists w :: w in workers && Some(w.id) == policy.preferredWorkerId && !Satisfies(w, mode, required, policy)
  {
    if PreferenceHolds(workers, mode, required, policy) { PreferredQualifies(workers, mode, required, policy); }
  }

  // ----- The past -----

  /** The worker with the lower value gains by the comparison, as far as both values are backed by samples. */
  lemma LowerGains(a: Metric, b: Metric)
    ensures Comparison(a, b) > 0.0 <==> a.value < b.value && a.sampleCount > 0 && b.sampleCount > 0
    ensures Comparison(a, b) == -Comparison(b, a)
  {
  }

  /** The lowest of all values gains by every comparison. */
  lemma {:induction false} LowestGains(metrics: seq<Metric>, i: nat, k: nat)
    requires i < |metrics| && k <= |metrics| && DistinctIds(metrics)
    requires forall j :: 0 <= j < |metrics| && j != i ==> metrics[i].value < metrics[j].value && metrics[j].sampleCount > 0
    requires metrics[i].sampleCount > 0
    ensures Comparisons(metrics, i, k) >= 0.0
    ensures Others(i, k) > 0 ==> Comparisons(metrics, i, k) > 0.0
  {
    if k > 0 {
      LowestGains(metrics, i, k - 1);
      LowerGains(metrics[i], metrics[k - 1]);
    }
  }

  /** A better past is worth more: with as many samples and evaluations, more successes and more passes
      never lower the adjustment. */
  lemma PerformanceGrows(a: Evidence, b: Evidence, maximumAdjustment: nat)
    requires Possible(a) && Possible(b) && a.sampleSize == b.sampleSize && a.evaluationCount == b.evaluationCount
    requires a.successCount >= b.successCount && a.evaluationPassCount >= b.evaluationPassCount
    ensures ScorePerformance(a, maximumAdjustment) >= ScorePerformance(b, maximumAdjustment)
  {
    BetterPerforms(a, b);
    var confidence := Confidence(a.sampleSize);
    PartOf(maximumAdjustment as real, confidence);
    AdjustedGrows(Performance(a), Performance(b), maximumAdjustment, confidence);
    RoundGrows(Adjusted(Performance(a), maximumAdjustment, confidence), Adjusted(Performance(b), maximumAdjustment, confidence));
  }

  lemma BetterPerforms(a: Evidence, b: Evidence)
    requires Possible(a) && Possible(b) && a.sampleSize == b.sampleSize && a.evaluationCount == b.evaluationCount
    requires a.successCount >= b.successCount && a.evaluationPassCount >= b.evaluationPassCount
    ensures Performance(a) >= Performance(b)
  {
    RatioGrows(a.successCount, b.successCount, a.sampleSize);
    if a.evaluationCount > 0 { RatioGrows(a.evaluationPassCount, b.evaluationPassCount, a.evaluationCount); }
  }

  lemma AdjustedGrows(x: real, y: real, maximumAdjustment: nat, confidence: real)
    requires x >= y && maximumAdjustment as real * confidence >= 0.0
    ensures Adjusted(x, maximumAdjustment, confidence) >= Adjusted(y, maximumAdjustment, confidence)
  {
    ProductGrows(x, y, maximumAdjustment as real * confidence);
  }

  lemma RoundGrows(x: real, y: real)
    requires x >= y
    ensures Round(x) >= Round(y)
  {
  }

  lemma RatioGrows(part: nat, less: nat, whole: nat)
    requires less <= part <= whole && whole > 0
    ensures Ratio(part, whole) >= Ratio(less, whole)
  {
    QuotientGrows(part as real, less as real, whole as real);
  }

  lemma QuotientGrows(x: real, y: real, w: real)
    requires x >= y && w > 0.0
    ensures x / w >= y / w
  {
    assert (x - y) / w >= 0.0;
    assert x / w - y / w == (x - y) / w;
  }

  lemma ProductGrows(x: real, y: real, c: real)
    requires x >= y && c >= 0.0
    ensures x * c >= y * c
  {
    ProductOfNonNegative(x - y, c);
    assert (x - y) * c == x * c - y * c;
  }

  /** Successes and passes count alike, and a run that was never evaluated counts by its successes. */
  lemma PerformanceCounts(e: Evidence)
    requires Possible(e)
    ensures e.evaluationCount == e.sampleSize ==>
              Performance(e) == Performance(e.(successCount := e.evaluationPassCount, evaluationPassCount := e.successCount))
    ensures e.evaluationCount == 0 ==>
              Performance(e) == Performance(e.(evaluationCount := e.sampleSize, evaluationPassCount := e.successCount))
    ensures e.evaluationCount == e.sampleSize ==>
              Performance(e) * e.sampleSize as real == (e.successCount + e.evaluationPassCount - e.sampleSize) as real
  {
    var n := e.sampleSize as real;
    if e.evaluationCount == e.sampleSize {
      var s, p := Ratio(e.successCount, e.sampleSize), Ratio(e.evaluationPassCount, e.sampleSize);
      RatioTimes(e.successCount, e.sampleSize);
      RatioTimes(e.evaluationPassCount, e.sampleSize);
      assert Performance(e) == s + p - 1.0;
      assert (s + p - 1.0) * n == s * n + p * n - n;
    }
  }

  lemma RatioTimes(part: nat, whole: nat)
    requires part <= whole && whole > 0
    ensures Ratio(part, whole) * whole as real == part as real
  {
  }

  /** Confidence grows evenly with the samples up to twenty, and is full from there on. */
  lemma ConfidenceGrows(n: nat)
    ensures n <= 20 ==> Confidence(n) * 20.0 == n as real
    ensures Confidence(n) == 1.0 <==> n >= 20
  {
  }

  /** Rounding goes to the nearest number, and up from the middle. */
  lemma RoundsToNearest(x: real, n: int)
    ensures Round(x) == n <==> n as real - 0.5 <= x < n as real + 0.5
  {
  }

  /** Twenty samples that all succeeded and passed are worth the whole weight, and twenty that all failed
      cost it. */
  lemma ExtremesOfPerformance(e: Evidence, maximumAdjustment: nat)
    requires Possible(e) && e.sampleSize >= 20 && e.evaluationCount > 0
    ensures e.successCount == e.sampleSize && e.evaluationPassCount == e.evaluationCount ==>
              ScorePerformance(e, maximumAdjustment) == maximumAdjustment
    ensures e.successCount == 0 && e.evaluationPassCount == 0 ==> ScorePerformance(e, maximumAdjustment) == 0 - maximumAdjustment
  {
    RatioEnds(e.sampleSize);
    RatioEnds(e.evaluationCount);
    assert Confidence(e.sampleSize) == 1.0;
    RoundsWhole(maximumAdjustment);
    RoundsWhole(0 - maximumAdjustment);
  }

  lemma RatioEnds(whole: nat)
    requires whole > 0
    ensures Ratio(whole, whole) == 1.0 && Ratio(0, whole) == 0.0
  {
  }

  lemma RoundsWhole(n: int)
    ensures Round(n as real) == n
  {
  }

  /** Of two workers with samples enough, the one with the lower value gains the whole weight and the other
      loses it. */
  lemma TwoWorkers(a: Metric, b: Metric, maximumAdjustment: nat)
    requires a.workerId != b.workerId && a.value < b.value && a.sampleCount >= 20 && b.sampleCount >= 20
    ensures Round(Adjustment([a, b], 0, maximumAdjustment)) == maximumAdjustment
    ensures Round(Adjustment([a, b], 1, maximumAdjustment)) == 0 - maximumAdjustment
  {
    var metrics := [a, b];
    assert Comparison(a, b) == 1.0 && Comparison(b, a) == -1.0;
    assert Comparisons(metrics, 0, 1) == 0.0 && Comparisons(metrics, 0, 2) == 1.0;
    assert Comparisons(metrics, 1, 1) == -1.0 && Comparisons(metrics, 1, 2) == -1.0;
    assert Share(metrics, maximumAdjustment) == maximumAdjustment as real;
    RoundsWhole(maximumAdjustment);
    RoundsWhole(0 - maximumAdjustment);
  }

  /** Evidence of a flawless past, with samples enough of everything. */
  predicate Flawless(e: Evidence) {
    && Possible(e) && e.sampleSize >= 20 && e.successCount == e.sampleSize
    && e.evaluationCount > 0 && e.evaluationPassCount == e.evaluationCount && e.costSampleCount >= 20
  }

  function MetricOf(id: string, e: Evidence, metric: Ranked): Metric
    requires Flawless(e)
  {
    match metric
    case ByCost => Metric(id, e.averageCost.value, e.costSampleCount)
    case ByDuration => Metric(id, e.medianDurationMs, e.sampleSize)
  }

  lemma MetricsOfTwo(a: Candidate, b: Candidate, evidence: EvidenceByWorker, metric: Ranked)
    requires a.worker.id in evidence && b.worker.id in evidence
    requires Flawless(evidence[a.worker.id]) && Flawless(evidence[b.worker.id])
    ensures Metrics([a, b], evidence, metric)
         == [MetricOf(a.worker.id, evidence[a.worker.id], metric), MetricOf(b.worker.id, evidence[b.worker.id], metric)]
  {
    assert [a, b][1..] == [b] && [b][1..] == [];
    assert Metrics([b], evidence, metric) == [Metrics([b], evidence, metric)[0]];
  }

  /** Of two workers with a flawless past, one was cheaper and the other faster. Cost prefers the first by
      120,000 and latency the second, and for balanced and quality they are even. */
  lemma CheapOrFast(a: Candidate, b: Candidate, s: Strategy, evidence: EvidenceByWorker)
    requires a.worker.id != b.worker.id && a.worker.id in evidence && b.worker.id in evidence
    requires Flawless(evidence[a.worker.id]) && Flawless(evidence[b.worker.id])
    requires evidence[a.worker.id].averageCost.value < evidence[b.worker.id].averageCost.value
    requires evidence[a.worker.id].medianDurationMs > evidence[b.worker.id].medianDurationMs
    ensures Adjust([a, b], s, evidence, a).score - a.score
         == (match s case Cost => 160_000 case Latency => 40_000 case Balanced => 75_000 case Quality => 300_000)
    ensures Adjust([a, b], s, evidence, b).score - b.score
         == (match s case Cost => 40_000 case Latency => 160_000 case Balanced => 75_000 case Quality => 300_000)
  {
    var w := EvidenceWeights(s);
    ExtremesOfPerformance(evidence[a.worker.id], w.performance);
    ExtremesOfPerformance(evidence[b.worker.id], w.performance);
    CheaperPastGains(a, b, evidence, w.cost);
    FasterPastGains(b, a, evidence, w.latency);
  }

  lemma CheaperPastGains(a: Candidate, b: Candidate, evidence: EvidenceByWorker, maximumAdjustment: nat)
    requires a.worker.id != b.worker.id && a.worker.id in evidence && b.worker.id in evidence
    requires Flawless(evidence[a.worker.id]) && Flawless(evidence[b.worker.id])
    requires evidence[a.worker.id].averageCost.value < evidence[b.worker.id].averageCost.value
    ensures RankAdjustment([a, b], evidence, ByCost, maximumAdjustment, a.worker.id) == maximumAdjustment
    ensures RankAdjustment([a, b], evidence, ByCost, maximumAdjustment, b.worker.id) == 0 - maximumAdjustment
  {
    MetricsOfTwo(a, b, evidence, ByCost);
    var metrics := Metrics([a, b], evidence, ByCost);
    TwoWorkers(metrics[0], metrics[1], maximumAdjustment);
    FindsBoth(metrics);
  }

  lemma FasterPastGains(a: Candidate, b: Candidate, evidence: EvidenceByWorker, maximumAdjustment: nat)
    requires a.worker.id != b.worker.id && a.worker.id in evidence && b.worker.id in evidence
    requires Flawless(evidence[a.worker.id]) && Flawless(evidence[b.worker.id])
    requires evidence[a.worker.id].medianDurationMs < evidence[b.worker.id].medianDurationMs
    ensures RankAdjustment([b, a], evidence, ByDuration, maximumAdjustment, a.worker.id) == maximumAdjustment
    ensures RankAdjustment([b, a], evidence, ByDuration, maximumAdjustment, b.worker.id) == 0 - maximumAdjustment
  {
    MetricsOfTwo(b, a, evidence, ByDuration);
    var metrics := Metrics([b, a], evidence, ByDuration);
    TwoWorkersReversed(metrics[1], metrics[0], maximumAdjustment);
    FindsBoth(metrics);
  }

  lemma FindsBoth(metrics: seq<Metric>)
    requires |metrics| == 2 && metrics[0].workerId != metrics[1].workerId
    ensures Find(metrics, metrics[0].workerId) == 0 && Find(metrics, metrics[1].workerId) == 1
  {
    assert metrics[1..][0] == metrics[1];
  }

  lemma TwoWorkersReversed(a: Metric, b: Metric, maximumAdjustment: nat)
    requires a.workerId != b.workerId && a.value < b.value && a.sampleCount >= 20 && b.sampleCount >= 20
    ensures Round(Adjustment([b, a], 1, maximumAdjustment)) == maximumAdjustment
    ensures Round(Adjustment([b, a], 0, maximumAdjustment)) == 0 - maximumAdjustment
  {
    var metrics := [b, a];
    assert Comparison(a, b) == 1.0 && Comparison(b, a) == -1.0;
    assert Comparisons(metrics, 1, 1) == 1.0 && Comparisons(metrics, 1, 2) == 1.0;
    assert Comparisons(metrics, 0, 1) == 0.0 && Comparisons(metrics, 0, 2) == -1.0;
    assert Share(metrics, maximumAdjustment) == maximumAdjustment as real;
    RoundsWhole(maximumAdjustment);
    RoundsWhole(0 - maximumAdjustment);
  }
}
