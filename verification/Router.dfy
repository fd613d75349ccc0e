/** Worker routing: declared scores, adjustments by past performance, and the order of the candidates
    (src/provider/router.ts, src/provider/routing-evidence.ts). Rationals stand for the program's
    floating-point numbers. */
module Router {
  import opened Domain
  import opened Wrappers

  datatype Strategy = Balanced | Cost | Latency | Quality

  datatype CostTier = LowCost | MediumCost | HighCost

  datatype LatencyTier = Fast | Standard | Slow

  datatype Worker = Worker(id: string, configured: bool, role: Option<string>, capabilities: set<string>,
                           priority: nat, costTier: CostTier, latencyTier: LatencyTier)

  datatype Policy = Policy(strategy: Strategy, requiredCapabilities: set<string>, preferredWorkerId: Option<string>,
                           maxCostTier: Option<CostTier>, maxLatencyTier: Option<LatencyTier>,
                           allowFallback: bool, maxAttempts: nat)

  datatype Evidence = Evidence(sampleSize: nat, successCount: nat, evaluationCount: nat, evaluationPassCount: nat,
                               medianDurationMs: int, costSampleCount: nat, averageCost: Option<int>)

  datatype Candidate = Candidate(worker: Worker, score: int)

  datatype Weights = Weights(performance: nat, cost: nat, latency: nat)

  const DEFAULT_BONUS := 1_000_000

  function EvidenceWeights(s: Strategy): Weights {
    match s
    case Balanced => Weights(75_000, 30_000, 30_000)
    case Cost => Weights(100_000, 60_000, 0)
    case Latency => Weights(100_000, 0, 60_000)
    case Quality => Weights(300_000, 0, 0)
  }

  function CostRank(t: CostTier): nat {
    match t case LowCost => 0 case MediumCost => 1 case HighCost => 2
  }

  function LatencyRank(t: LatencyTier): nat {
    match t case Fast => 0 case Standard => 1 case Slow => 2
  }

  // ----- The declared score -----

  function BaseScore(w: Worker, s: Strategy): int {
    var cost, latency := 2 - CostRank(w.costTier), 2 - LatencyRank(w.latencyTier);
    w.priority * 100 +
    (match s
     case Cost => cost * 20_000 + latency * 500
     case Latency => latency * 20_000 + cost * 500
     case Quality => w.priority * 20_000
     case Balanced => cost * 5_000 + latency * 5_000)
  }

  function ScoreWorker(w: Worker, s: Strategy, preferred: Option<string>): Candidate {
    Candidate(w, BaseScore(w, s) + (if Some(w.id) == preferred then DEFAULT_BONUS else 0))
  }

  // ----- Evidence -----

  /** Math.round: halves go up. */
  function Round(x: real): int {
    (x + 0.5).Floor
  }

  lemma RoundWithin(x: real, most: nat)
    requires -(most as real) <= x <= most as real
    ensures 0 - most <= Round(x) <= most
  {
  }

  /** What aggregateObservations can produce of one worker. */
  predicate Possible(e: Evidence) {
    && 1 <= e.sampleSize && e.successCount <= e.sampleSize
    && e.evaluationPassCount <= e.evaluationCount <= e.sampleSize
    && (e.averageCost.Some? <==> e.costSampleCount > 0) && e.costSampleCount <= e.sampleSize
  }

  datatype Observation = Observation(workerId: string, status: RunStatus, evaluationPassed: bool, evaluationRecorded: bool,
                                     durationMs: int, cost: Option<int>)

  function Count(observations: seq<Observation>, counts: Observation -> bool): nat {
    if observations == [] then 0
    else Count(observations[1..], counts) + (if counts(observations[0]) then 1 else 0)
  }

  lemma {:induction false} CountWithin(observations: seq<Observation>, a: Observation -> bool, b: Observation -> bool)
    requires forall o :: o in observations && a(o) ==> b(o)
    ensures Count(observations, a) <= Count(observations, b) <= |observations|
  {
    if observations != [] {
      CountWithin(observations[1..], a, b);
      assert observations[0] in observations;
    }
  }

  predicate Succeeded(o: Observation) { o.status == Completed }

  predicate Evaluated(o: Observation) { o.evaluationRecorded }

  predicate EvaluationPassed(o: Observation) { o.evaluationRecorded && o.evaluationPassed }

  predicate Priced(o: Observation) { o.cost.Some? }

  /** The counts of one worker's observations. The median and the average are parameters. */
  function Aggregate(observations: seq<Observation>, median: int, average: int): Evidence {
    var costs := Count(observations, Priced);
    Evidence(|observations|, Count(observations, Succeeded), Count(observations, Evaluated),
             Count(observations, EvaluationPassed), median, costs, if costs == 0 then None else Some(average))
  }

  lemma AggregateIsPossible(observations: seq<Observation>, median: int, average: int)
    requires observations != []
    ensures Possible(Aggregate(observations, median, average))
  {
    CountWithin(observations, Succeeded, Succeeded);
    CountWithin(observations, EvaluationPassed, Evaluated);
    CountWithin(observations, Priced, Priced);
  }

  function Confidence(sampleSize: nat): (c: real)
    ensures 0.0 <= c <= 1.0
  {
    (if sampleSize < 20 then sampleSize else 20) as real / 20.0
  }

  function Ratio(part: nat, whole: nat): (r: real)
    requires part <= whole && whole > 0
    ensures 0.0 <= r <= 1.0
  {
    var r := part as real / whole as real;
    assert part as real <= whole as real;
    r
  }

  /** Between -1 and 1: how far the past speaks for the worker. */
  function Performance(e: Evidence): (x: real)
    requires Possible(e)
    ensures -1.0 <= x <= 1.0
  {
    var successRate := Ratio(e.successCount, e.sampleSize);
    var evaluationRate := if e.evaluationCount == 0 then successRate else Ratio(e.evaluationPassCount, e.evaluationCount);
    ((successRate + evaluationRate) / 2.0 - 0.5) * 2.0
  }

  lemma ProductOfNonNegative(a: real, b: real)
    requires a >= 0.0 && b >= 0.0
    ensures a * b >= 0.0
  {
  }

  /** A factor between -d and d keeps a product within d times the other factor. */
  lemma ProductWithin(x: real, c: real, d: real)
    requires -d <= x <= d && c >= 0.0
    ensures -(d * c) <= x * c <= d * c
  {
    ProductOfNonNegative(d - x, c);
    ProductOfNonNegative(d + x, c);
    assert (d - x) * c == d * c - x * c && (d + x) * c == d * c + x * c;
  }

  lemma UnitTimes(x: real, c: real, m: real)
    requires -1.0 <= x <= 1.0 && 0.0 <= c <= m
    ensures -m <= x * c <= m
  {
    ProductOfNonNegative(1.0 - x, c);
    ProductOfNonNegative(1.0 + x, c);
    assert (1.0 - x) * c == c - x * c && (1.0 + x) * c == c + x * c;
  }

  lemma PartOf(m: real, part: real)
    requires m >= 0.0 && 0.0 <= part <= 1.0
    ensures 0.0 <= m * part <= m
  {
    ProductOfNonNegative(m, part);
    ProductOfNonNegative(m, 1.0 - part);
    assert m * (1.0 - part) == m - m * part;
  }

  /** The product in scorePerformance, before rounding. */
  function Adjusted(performance: real, maximumAdjustment: nat, confidence: real): real {
    performance * (maximumAdjustment as real * confidence)
  }

  lemma AdjustedWithin(performance: real, maximumAdjustment: nat, confidence: real)
    requires -1.0 <= performance <= 1.0 && 0.0 <= confidence <= 1.0
    ensures -(maximumAdjustment as real) <= Adjusted(performance, maximumAdjustment, confidence) <= maximumAdjustment as real
  {
    var m := maximumAdjustment as real;
    PartOf(m, confidence);
    UnitTimes(performance, m * confidence, m);
  }

  function ScorePerformance(e: Evidence, maximumAdjustment: nat): (r: int)
    requires Possible(e)
    ensures 0 - maximumAdjustment <= r <= maximumAdjustment
  {
    var x := Adjusted(Performance(e), maximumAdjustment, Confidence(e.sampleSize));
    AdjustedWithin(Performance(e), maximumAdjustment, Confidence(e.sampleSize));
    RoundWithin(x, maximumAdjustment);
    Round(x)
  }

  // ----- Ranking by a metric -----

  datatype Metric = Metric(workerId: string, value: int, sampleCount: nat)

  /** What the comparison of two workers is worth to the first. */
  function Comparison(a: Metric, b: Metric): (x: real)
    ensures -1.0 <= x <= 1.0
  {
    var direction := if a.value < b.value then 1.0 else if a.value > b.value then -1.0 else 0.0;
    direction * (if Confidence(a.sampleCount) < Confidence(b.sampleCount) then Confidence(a.sampleCount)
                 else Confidence(b.sampleCount))
  }

  /** The comparisons of metric i with the others among the first k. */
  function Comparisons(metrics: seq<Metric>, i: nat, k: nat): real
    requires i < |metrics| && k <= |metrics|
  {
    if k == 0 then 0.0
    else Comparisons(metrics, i, k - 1)
         + (if metrics[k - 1].workerId != metrics[i].workerId then Comparison(metrics[i], metrics[k - 1]) else 0.0)
  }

  predicate DistinctIds(metrics: seq<Metric>) {
    forall i, j :: 0 <= i < j < |metrics| ==> metrics[i].workerId != metrics[j].workerId
  }

  /** What one comparison is worth: the maximum, shared among the others. */
  function Share(metrics: seq<Metric>, maximumAdjustment: nat): real
    requires |metrics| >= 2
  {
    maximumAdjustment as real / (|metrics| - 1) as real
  }

  lemma SharesMakeTheMaximum(metrics: seq<Metric>, maximumAdjustment: nat)
    requires |metrics| >= 2
    ensures var x := Share(metrics, maximumAdjustment);
            x >= 0.0 && (|metrics| - 1) as real * x == maximumAdjustment as real
  {
  }

  /** The adjustment of metric i, before rounding. */
  function Adjustment(metrics: seq<Metric>, i: nat, maximumAdjustment: nat): real
    requires i < |metrics| && |metrics| >= 2
  {
    Comparisons(metrics, i, |metrics|) * Share(metrics, maximumAdjustment)
  }

  /** The number of others among the first k. */
  function Others(i: nat, k: nat): nat {
    if i < k then k - 1 else k
  }

  lemma {:induction false} ComparisonsWithin(metrics: seq<Metric>, i: nat, k: nat)
    requires i < |metrics| && k <= |metrics| && DistinctIds(metrics)
    ensures -(Others(i, k) as real) <= Comparisons(metrics, i, k) <= Others(i, k) as real
  {
    if k > 0 { ComparisonsWithin(metrics, i, k - 1); }
  }

  /** The sum of the first n workers' comparisons with the first k. */
  function AllComparisons(metrics: seq<Metric>, n: nat, k: nat): real
    requires n <= |metrics| && k <= |metrics|
  {
    if n == 0 then 0.0 else AllComparisons(metrics, n - 1, k) + Comparisons(metrics, n - 1, k)
  }

  lemma {:induction false} NewColumn(metrics: seq<Metric>, n: nat, k: nat)
    requires n <= k < |metrics| && DistinctIds(metrics)
    ensures AllComparisons(metrics, n, k + 1) == AllComparisons(metrics, n, k) - Comparisons(metrics, k, n)
  {
    if n > 0 { NewColumn(metrics, n - 1, k); }
  }

  /** What one worker gains in a comparison the other loses. */
  lemma {:induction false} ComparisonsCancel(metrics: seq<Metric>, n: nat)
    requires n <= |metrics| && DistinctIds(metrics)
    ensures AllComparisons(metrics, n, n) == 0.0
  {
    if n > 0 {
      ComparisonsCancel(metrics, n - 1);
      NewColumn(metrics, n - 1, n - 1);
    }
  }

  /** So many comparisons, each worth a share of the maximum, stay within the maximum. */
  lemma SharedWithin(comparisons: real, share: real, others: real, maximum: real)
    requires -others <= comparisons <= others && share >= 0.0 && others * share == maximum
    ensures -maximum <= comparisons * share <= maximum
  {
    ProductWithin(comparisons, share, others);
  }

  lemma AdjustmentBounds(metrics: seq<Metric>, i: nat, maximumAdjustment: nat)
    requires i < |metrics| && |metrics| >= 2 && DistinctIds(metrics)
    ensures -(maximumAdjustment as real) <= Adjustment(metrics, i, maximumAdjustment) <= maximumAdjustment as real
  {
    ComparisonsWithin(metrics, i, |metrics|);
    SharesMakeTheMaximum(metrics, maximumAdjustment);
    SharedWithin(Comparisons(metrics, i, |metrics|), Share(metrics, maximumAdjustment), (|metrics| - 1) as real,
                 maximumAdjustment as real);
  }

  /** One worker's comparisons leave its adjustment within the maximum, rounded or not. */
  lemma AdjustmentWithin(metrics: seq<Metric>, i: nat, maximumAdjustment: nat)
    requires i < |metrics| && |metrics| >= 2 && DistinctIds(metrics)
    ensures 0 - maximumAdjustment <= Round(Adjustment(metrics, i, maximumAdjustment)) <= maximumAdjustment
  {
    AdjustmentBounds(metrics, i, maximumAdjustment);
    RoundWithin(Adjustment(metrics, i, maximumAdjustment), maximumAdjustment);
  }

  /** The sum of the first n adjustments. */
  function SumOfAdjustments(metrics: seq<Metric>, maximumAdjustment: nat, n: nat): real
    requires |metrics| >= 2 && n <= |metrics|
  {
    if n == 0 then 0.0
    else SumOfAdjustments(metrics, maximumAdjustment, n - 1) + Adjustment(metrics, n - 1, maximumAdjustment)
  }

  /** The same sum, with the share as a number. */
  function SumOfShares(metrics: seq<Metric>, share: real, n: nat): real
    requires n <= |metrics|
  {
    if n == 0 then 0.0 else SumOfShares(metrics, share, n - 1) + Product(Comparisons(metrics, n - 1, |metrics|), share)
  }

  /** A product under a name of its own, which keeps the proofs linear. */
  function Product(a: real, m: real): real {
    a * m
  }

  lemma Distributes(a: real, b: real, m: real)
    ensures Product(a, m) + Product(b, m) == Product(a + b, m)
  {
  }

  lemma {:induction false} SharesOfComparisons(metrics: seq<Metric>, share: real, n: nat)
    requires n <= |metrics|
    ensures SumOfShares(metrics, share, n) == Product(AllComparisons(metrics, n, |metrics|), share)
  {
    if n > 0 {
      SharesOfComparisons(metrics, share, n - 1);
      Distributes(AllComparisons(metrics, n - 1, |metrics|), Comparisons(metrics, n - 1, |metrics|), share);
    }
  }

  lemma {:induction false} AdjustmentsAreShares(metrics: seq<Metric>, maximumAdjustment: nat, n: nat)
    requires |metrics| >= 2 && n <= |metrics|
    ensures SumOfAdjustments(metrics, maximumAdjustment, n) == SumOfShares(metrics, Share(metrics, maximumAdjustment), n)
  {
    if n > 0 { AdjustmentsAreShares(metrics, maximumAdjustment, n - 1); }
  }

  /** Ranking moves score between workers and makes none: before rounding the adjustments sum to zero. */
  lemma AdjustmentsSumToZero(metrics: seq<Metric>, maximumAdjustment: nat)
    requires |metrics| >= 2 && DistinctIds(metrics)
    ensures SumOfAdjustments(metrics, maximumAdjustment, |metrics|) == 0.0
  {
    AdjustmentsAreShares(metrics, maximumAdjustment, |metrics|);
    SharesOfComparisons(metrics, Share(metrics, maximumAdjustment), |metrics|);
    ComparisonsCancel(metrics, |metrics|);
  }
}
