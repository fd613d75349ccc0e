/** The route: which workers qualify, in which order, and how many are tried (src/provider/router.ts). */
module RouterOrder {
  import Domain
  import opened Wrappers
  import opened Router
  import TaskModel

  type EvidenceByWorker = map<string, Evidence>

  ghost predicate AllPossible(evidence: EvidenceByWorker) {
    forall id :: id in evidence ==> Possible(evidence[id])
  }

  predicate DistinctWorkers(candidates: seq<Candidate>) {
    forall i, j :: 0 <= i < j < |candidates| ==> candidates[i].worker.id != candidates[j].worker.id
  }

  datatype Ranked = ByCost | ByDuration

  function ReadMetric(e: Evidence, metric: Ranked): Option<int> {
    match metric case ByCost => e.averageCost case ByDuration => Some(e.medianDurationMs)
  }

  function SampleCount(e: Evidence, metric: Ranked): nat {
    match metric case ByCost => e.costSampleCount case ByDuration => e.sampleSize
  }

  /** The candidates whose evidence has the metric. */
  function Metrics(candidates: seq<Candidate>, evidence: EvidenceByWorker, metric: Ranked): seq<Metric> {
    if candidates == [] then []
    else
      var id := candidates[0].worker.id;
      var rest := Metrics(candidates[1..], evidence, metric);
      if id in evidence && ReadMetric(evidence[id], metric).Some? then
        [Metric(id, ReadMetric(evidence[id], metric).value, SampleCount(evidence[id], metric))] + rest
      else rest
  }

  lemma {:induction false} MetricsAreDistinct(candidates: seq<Candidate>, evidence: EvidenceByWorker, metric: Ranked)
    requires DistinctWorkers(candidates)
    ensures DistinctIds(Metrics(candidates, evidence, metric))
    ensures forall m :: m in Metrics(candidates, evidence, metric) ==>
              exists i :: 0 <= i < |candidates| && candidates[i].worker.id == m.workerId
  {
    if candidates != [] {
      var rest := candidates[1..];
      MetricsAreDistinct(rest, evidence, metric);
      forall m | m in Metrics(rest, evidence, metric) ensures exists i :: 0 < i < |candidates| && candidates[i].worker.id == m.workerId {
        var i :| 0 <= i < |rest| && rest[i].worker.id == m.workerId;
        assert candidates[i + 1].worker.id == m.workerId;
      }
    }
  }

  /** The position of a worker among the metrics, or their number. */
  function Find(metrics: seq<Metric>, id: string): (i: nat)
    ensures i <= |metrics|
  {
    if metrics == [] || metrics[0].workerId == id then 0 else 1 + Find(metrics[1..], id)
  }

  /** rankMetricAdjustments, for one worker; 0 where the map has no entry. */
  function RankAdjustment(candidates: seq<Candidate>, evidence: EvidenceByWorker, metric: Ranked, maximumAdjustment: nat,
                          id: string): (r: int)
    requires DistinctWorkers(candidates)
    ensures 0 - maximumAdjustment <= r <= maximumAdjustment
  {
    var metrics := Metrics(candidates, evidence, metric);
    if maximumAdjustment == 0 || |metrics| < 2 || Find(metrics, id) == |metrics| then 0
    else
      MetricsAreDistinct(candidates, evidence, metric);
      AdjustmentWithin(metrics, Find(metrics, id), maximumAdjustment);
      Round(Adjustment(metrics, Find(metrics, id), maximumAdjustment))
  }

  function MaxAdjustment(s: Strategy): nat {
    var w := EvidenceWeights(s);
    w.performance + w.cost + w.latency
  }

  /** One candidate of applyRoutingEvidence. */
  function Adjust(candidates: seq<Candidate>, s: Strategy, evidence: EvidenceByWorker, c: Candidate): (r: Candidate)
    requires DistinctWorkers(candidates)
    requires c.worker.id in evidence ==> Possible(evidence[c.worker.id])
    ensures r.worker == c.worker
    ensures c.score - MaxAdjustment(s) <= r.score <= c.score + MaxAdjustment(s)
  {
    if c.worker.id !in evidence then c
    else
      var w, id := EvidenceWeights(s), c.worker.id;
      c.(score := c.score + ScorePerformance(evidence[id], w.performance)
                  + RankAdjustment(candidates, evidence, ByCost, w.cost, id)
                  + RankAdjustment(candidates, evidence, ByDuration, w.latency, id))
  }

  function AdjustAll(candidates: seq<Candidate>, s: Strategy, evidence: EvidenceByWorker): (r: seq<Candidate>)
    requires DistinctWorkers(candidates) && AllPossible(evidence)
    ensures |r| == |candidates|
    ensures forall i :: 0 <= i < |r| ==> r[i] == Adjust(candidates, s, evidence, candidates[i])
  {
    seq(|candidates|, i requires 0 <= i < |candidates| => Adjust(candidates, s, evidence, candidates[i]))
  }

  // ----- The order -----

  /** `localeCompare` on worker ids, as a parameter. */
  type IdOrder = (string, string) -> bool

  /** compareCandidatesWithPreference answers below zero. */
  predicate Precedes(left: Candidate, right: Candidate, preferred: Option<string>, idOrder: IdOrder) {
    if left.worker.id == right.worker.id then false
    else if Some(left.worker.id) == preferred then true
    else if Some(right.worker.id) == preferred then false
    else left.score > right.score || (left.score == right.score && idOrder(left.worker.id, right.worker.id))
  }

  function Insert(c: Candidate, sorted: seq<Candidate>, preferred: Option<string>, idOrder: IdOrder): seq<Candidate> {
    if sorted == [] || Precedes(c, sorted[0], preferred, idOrder) then [c] + sorted
    else [sorted[0]] + Insert(c, sorted[1..], preferred, idOrder)
  }

  function Sort(candidates: seq<Candidate>, preferred: Option<string>, idOrder: IdOrder): seq<Candidate> {
    if candidates == [] then []
    else Insert(candidates[0], Sort(candidates[1..], preferred, idOrder), preferred, idOrder)
  }

  lemma {:induction false} InsertKeeps(c: Candidate, sorted: seq<Candidate>, preferred: Option<string>, idOrder: IdOrder)
    ensures multiset(Insert(c, sorted, preferred, idOrder)) == multiset{c} + multiset(sorted)
  {
    if sorted != [] && !Precedes(c, sorted[0], preferred, idOrder) {
      InsertKeeps(c, sorted[1..], preferred, idOrder);
      assert sorted == [sorted[0]] + sorted[1..];
    }
  }

  lemma {:induction false} SortKeeps(candidates: seq<Candidate>, preferred: Option<string>, idOrder: IdOrder)
    ensures multiset(Sort(candidates, preferred, idOrder)) == multiset(candidates)
    ensures |Sort(candidates, preferred, idOrder)| == |candidates|
  {
    if candidates != [] {
      SortKeeps(candidates[1..], preferred, idOrder);
      InsertKeeps(candidates[0], Sort(candidates[1..], preferred, idOrder), preferred, idOrder);
      assert candidates == [candidates[0]] + candidates[1..];
      assert |multiset(Sort(candidates, preferred, idOrder))| == |multiset(candidates)|;
    }
  }

  /** A candidate that precedes every other comes first, whatever the order among the rest. */
  lemma {:induction false} SortsFirst(candidates: seq<Candidate>, preferred: Option<string>, idOrder: IdOrder, w: nat)
    requires w < |candidates|
    requires forall i :: 0 <= i < |candidates| && i != w ==>
               && Precedes(candidates[w], candidates[i], preferred, idOrder)
               && !Precedes(candidates[i], candidates[w], preferred, idOrder)
    ensures Sort(candidates, preferred, idOrder) != [] && Sort(candidates, preferred, idOrder)[0] == candidates[w]
  {
    var rest := candidates[1..];
    var sorted := Sort(rest, preferred, idOrder);
    SortKeeps(rest, preferred, idOrder);
    if w > 0 {
      SortsFirst(rest, preferred, idOrder, w - 1);
    } else if sorted != [] {
      assert sorted[0] in multiset(sorted);
      var i :| 0 <= i < |rest| && rest[i] == sorted[0];
      assert candidates[i + 1] == rest[i];
    }
  }

  // ----- Who comes first -----

  /** scoreWorker's bounds, for priorities of at most 100. */
  lemma BaseScoreWithin(w: Worker, s: Strategy)
    requires w.priority <= 100
    ensures 0 <= BaseScore(w, s)
    ensures s == Balanced ==> BaseScore(w, s) <= 30_000
    ensures s == Cost || s == Latency ==> BaseScore(w, s) <= 51_000
    ensures s == Quality ==> BaseScore(w, s) == 20_100 * w.priority
  {
  }

  function Declared(workers: seq<Worker>, s: Strategy, default_: Option<string>): (r: seq<Candidate>)
    ensures |r| == |workers|
    ensures forall i :: 0 <= i < |r| ==> r[i] == ScoreWorker(workers[i], s, default_)
  {
    seq(|workers|, i requires 0 <= i < |workers| => ScoreWorker(workers[i], s, default_))
  }

  predicate DistinctIdsOf(workers: seq<Worker>) {
    forall i, j :: 0 <= i < j < |workers| ==> workers[i].id != workers[j].id
  }

  /** The candidates in their final order. */
  function Ranking(workers: seq<Worker>, s: Strategy, preferred: Option<string>, default_: Option<string>,
                   evidence: EvidenceByWorker, idOrder: IdOrder): seq<Candidate>
    requires DistinctIdsOf(workers) && AllPossible(evidence)
  {
    Sort(AdjustAll(Declared(workers, s, default_), s, evidence), preferred, idOrder)
  }

  /** A preferred worker that qualifies is always first. */
  lemma PreferredIsFirst(workers: seq<Worker>, s: Strategy, default_: Option<string>, evidence: EvidenceByWorker,
                         idOrder: IdOrder, w: nat)
    requires DistinctIdsOf(workers) && AllPossible(evidence) && w < |workers|
    ensures var r := Ranking(workers, s, Some(workers[w].id), default_, evidence, idOrder);
            r != [] && r[0].worker == workers[w]
  {
    var adjusted := AdjustAll(Declared(workers, s, default_), s, evidence);
    SortsFirst(adjusted, Some(workers[w].id), idOrder, w);
  }

  /** The widest gap between base scores that the evidence cannot close against the default's bonus. */
  lemma DefaultLeads(workers: seq<Worker>, s: Strategy, evidence: EvidenceByWorker, idOrder: IdOrder, w: nat)
    requires DistinctIdsOf(workers) && AllPossible(evidence) && w < |workers|
    requires forall i :: 0 <= i < |workers| && i != w ==>
               BaseScore(workers[i], s) + 2 * MaxAdjustment(s) < BaseScore(workers[w], s) + DEFAULT_BONUS
    ensures var r := Ranking(workers, s, None, Some(workers[w].id), evidence, idOrder);
            r != [] && r[0].worker == workers[w]
  {
    var declared := Declared(workers, s, Some(workers[w].id));
    var adjusted := AdjustAll(declared, s, evidence);
    forall i | 0 <= i < |workers| && i != w ensures adjusted[i].score < adjusted[w].score {
      assert declared[i].score == BaseScore(workers[i], s);
      assert adjusted[i] == Adjust(declared, s, evidence, declared[i]);
      assert adjusted[w] == Adjust(declared, s, evidence, declared[w]);
    }
    SortsFirst(adjusted, None, idOrder, w);
  }

  /** Without a preference, a default worker that qualifies is first under balanced, cost and latency,
      whatever the past. */
  lemma DefaultIsFirst(workers: seq<Worker>, s: Strategy, evidence: EvidenceByWorker, idOrder: IdOrder, w: nat)
    requires DistinctIdsOf(workers) && AllPossible(evidence) && w < |workers| && s != Quality
    requires forall i :: 0 <= i < |workers| ==> workers[i].priority <= 100
    ensures var r := Ranking(workers, s, None, Some(workers[w].id), evidence, idOrder);
            r != [] && r[0].worker == workers[w]
  {
    forall i | 0 <= i < |workers|
      ensures 0 <= BaseScore(workers[i], s) <= 51_000
    {
      BaseScoreWithin(workers[i], s);
    }
    DefaultLeads(workers, s, evidence, idOrder, w);
  }

  /** Without a preference the first candidate has the highest score. */
  lemma {:induction false} FirstIsHighest(candidates: seq<Candidate>, idOrder: IdOrder)
    requires DistinctWorkers(candidates) && candidates != []
    ensures Sort(candidates, None, idOrder) != []
    ensures forall i :: 0 <= i < |candidates| ==> candidates[i].score <= Sort(candidates, None, idOrder)[0].score
    ensures Sort(candidates, None, idOrder)[0] in candidates
  {
    var rest := candidates[1..];
    SortKeeps(rest, None, idOrder);
    if rest != [] {
      FirstIsHighest(rest, idOrder);
      forall i | 0 < i < |candidates| ensures candidates[i].score <= Sort(rest, None, idOrder)[0].score {
        assert candidates[i] == rest[i - 1];
      }
      var first := Sort(rest, None, idOrder)[0];
      var j :| 0 <= j < |rest| && rest[j] == first;
      assert candidates[j + 1] == first;
    }
  }

  predicate IsFirst(workers: seq<Worker>, s: Strategy, evidence: EvidenceByWorker, idOrder: IdOrder, w: nat)
    requires DistinctIdsOf(workers) && w < |workers| && forall id :: id in evidence ==> Possible(evidence[id])
  {
    var r := Ranking(workers, s, None, Some(workers[w].id), evidence, idOrder);
    r != [] && r[0].worker == workers[w]
  }

  /** A worker that scores higher than the default comes before it. */
  lemma HigherIsBefore(workers: seq<Worker>, s: Strategy, evidence: EvidenceByWorker, idOrder: IdOrder, w: nat, i: nat)
    requires DistinctIdsOf(workers) && AllPossible(evidence) && w < |workers| && i < |workers|
    requires var declared := Declared(workers, s, Some(workers[w].id));
             DistinctWorkers(declared)
             && Adjust(declared, s, evidence, declared[i]).score > Adjust(declared, s, evidence, declared[w]).score
    ensures !IsFirst(workers, s, evidence, idOrder, w)
  {
    var declared := Declared(workers, s, Some(workers[w].id));
    var adjusted := AdjustAll(declared, s, evidence);
    FirstIsHighest(adjusted, idOrder);
    var first := Sort(adjusted, None, idOrder)[0];
    assert adjusted[w].score < adjusted[i].score <= first.score;
    var j :| 0 <= j < |adjusted| && adjusted[j] == first;
    assert first.worker == workers[j];
  }

  /** Evidence as bad as can be for one worker and as good as can be for another, every sample evaluated,
      as the task journal has it. */
  function Contrast(bad: string, good: string): EvidenceByWorker {
    map[bad := Evidence(20, 0, 20, 0, 0, 0, None), good := Evidence(20, 20, 20, 20, 0, 0, None)]
  }

  lemma ExtremePerformance()
    ensures ScorePerformance(Evidence(20, 0, 20, 0, 0, 0, None), 300_000) == -300_000
    ensures ScorePerformance(Evidence(20, 20, 20, 20, 0, 0, None), 300_000) == 300_000
  {
    var bad, good := Evidence(20, 0, 20, 0, 0, 0, None), Evidence(20, 20, 20, 20, 0, 0, None);
    assert Ratio(0, 20) == 0.0 && Ratio(20, 20) == 1.0;
    assert Performance(bad) == -1.0 && Performance(good) == 1.0;
    assert Confidence(20) == 1.0;
  }

  ghost predicate AlwaysFirst(workers: seq<Worker>, s: Strategy, idOrder: IdOrder, w: nat)
    requires DistinctIdsOf(workers) && w < |workers|
  {
    forall evidence: EvidenceByWorker :: AllPossible(evidence) ==> IsFirst(workers, s, evidence, idOrder, w)
  }

  predicate WithinGap(workers: seq<Worker>, w: nat, gap: nat)
    requires w < |workers|
  {
    forall i :: 0 <= i < |workers| ==> workers[i].priority <= workers[w].priority + gap
  }

  lemma QualityContrast(workers: seq<Worker>, idOrder: IdOrder, w: nat, i: nat)
    requires DistinctIdsOf(workers) && w < |workers| && i < |workers|
    requires workers[i].priority > workers[w].priority + 19
    ensures AllPossible(Contrast(workers[w].id, workers[i].id))
    ensures forall e :: e in Contrast(workers[w].id, workers[i].id).Values ==> e.evaluationCount == e.sampleSize
    ensures !IsFirst(workers, Quality, Contrast(workers[w].id, workers[i].id), idOrder, w)
  {
    var evidence := Contrast(workers[w].id, workers[i].id);
    var declared := Declared(workers, Quality, Some(workers[w].id));
    assert workers[w].id != workers[i].id;
    assert evidence[workers[w].id] == Evidence(20, 0, 20, 0, 0, 0, None);
    assert evidence[workers[i].id] == Evidence(20, 20, 20, 20, 0, 0, None);
    ExtremePerformance();
    HigherIsBefore(workers, Quality, evidence, idOrder, w, i);
  }

  /** Under quality that promise fails: the default is first whatever the past exactly when no other
      worker's priority is more than 19 above its own. */
  lemma QualityDefaultIsFirst(workers: seq<Worker>, idOrder: IdOrder, w: nat)
    requires DistinctIdsOf(workers) && w < |workers|
    ensures AlwaysFirst(workers, Quality, idOrder, w) <==> WithinGap(workers, w, 19)
  {
    if WithinGap(workers, w, 19) {
      forall evidence: EvidenceByWorker | AllPossible(evidence) ensures IsFirst(workers, Quality, evidence, idOrder, w) {
        DefaultLeads(workers, Quality, evidence, idOrder, w);
      }
    } else {
      var i :| 0 <= i < |workers| && workers[i].priority > workers[w].priority + 19;
      QualityContrast(workers, idOrder, w, i);
    }
  }

  /** And with no past at all, exactly when none is more than 49 above. */
  lemma QualityDefaultWithoutEvidence(workers: seq<Worker>, idOrder: IdOrder, w: nat)
    requires DistinctIdsOf(workers) && w < |workers|
    ensures IsFirst(workers, Quality, map[], idOrder, w) <==> WithinGap(workers, w, 49)
  {
    var declared := Declared(workers, Quality, Some(workers[w].id));
    var adjusted := AdjustAll(declared, Quality, map[]);
    if WithinGap(workers, w, 49) {
      forall i | 0 <= i < |workers| && i != w ensures adjusted[i].score < adjusted[w].score {
        assert adjusted[i] == declared[i] && adjusted[w] == declared[w];
        assert workers[i].priority <= workers[w].priority + 49;
      }
      SortsFirst(adjusted, None, idOrder, w);
    } else {
      var i :| 0 <= i < |workers| && workers[i].priority > workers[w].priority + 49;
      HigherIsBefore(workers, Quality, map[], idOrder, w, i);
    }
  }

  // ----- The route -----

  datatype RouteError = EvidenceModeMismatch | WorkerNotFound | WorkerDoesNotSatisfyRoute | NoWorkerRoute

  datatype Route = Route(candidates: seq<Candidate>, maxAttempts: nat, fallbackEnabled: bool)

  predicate Satisfies(w: Worker, mode: string, required: set<string>, policy: Policy) {
    && w.configured
    && (w.role.None? || w.role.value == mode)
    && required <= w.capabilities
    && (policy.maxCostTier.None? || CostRank(w.costTier) <= CostRank(policy.maxCostTier.value))
    && (policy.maxLatencyTier.None? || LatencyRank(w.latencyTier) <= LatencyRank(policy.maxLatencyTier.value))
  }

  function Qualified(workers: seq<Worker>, mode: string, required: set<string>, policy: Policy): (r: seq<Worker>)
    ensures forall w :: w in r <==> w in workers && Satisfies(w, mode, required, policy)
    ensures |r| <= |workers|
  {
    if workers == [] then []
    else
      var rest := Qualified(workers[1..], mode, required, policy);
      assert forall w :: w in workers <==> w == workers[0] || w in workers[1..];
      if Satisfies(workers[0], mode, required, policy) then [workers[0]] + rest else rest
  }

  lemma {:induction false} QualifiedStayDistinct(workers: seq<Worker>, mode: string, required: set<string>, policy: Policy)
    requires DistinctIdsOf(workers)
    ensures DistinctIdsOf(Qualified(workers, mode, required, policy))
  {
    if workers != [] {
      var rest := Qualified(workers[1..], mode, required, policy);
      QualifiedStayDistinct(workers[1..], mode, required, policy);
      forall k | 0 <= k < |rest| ensures rest[k].id != workers[0].id {
        assert rest[k] in rest;
        var j :| 0 <= j < |workers[1..]| && workers[1..][j] == rest[k];
        assert workers[j + 1] == rest[k];
      }
    }
  }

  /** routeWorkers. */
  function RouteWorkers(workers: seq<Worker>, mode: string, policy: Policy, defaultWorkerId: Option<string>,
                        maxAttempts: nat, evidence: Option<(string, EvidenceByWorker)>, idOrder: IdOrder)
    : Result<Route, RouteError>
    requires DistinctIdsOf(workers) && (evidence.Some? ==> forall id :: id in evidence.value.1 ==> Possible(evidence.value.1[id]))
  {
    if evidence.Some? && evidence.value.0 != mode then Err(EvidenceModeMismatch)
    else
      var required := {mode, "tool-calling"} + policy.requiredCapabilities;
      var preferred := policy.preferredWorkerId;
      if preferred.Some? && !exists w :: w in workers && w.id == preferred.value then Err(WorkerNotFound)
      else if exists w :: w in workers && Some(w.id) == preferred && !Satisfies(w, mode, required, policy) then
        Err(WorkerDoesNotSatisfyRoute)
      else
        var known := if evidence.Some? then evidence.value.1 else map[];
        QualifiedStayDistinct(workers, mode, required, policy);
        var candidates := Ranking(Qualified(workers, mode, required, policy), policy.strategy, preferred,
                                  if preferred.Some? then preferred else defaultWorkerId, known, idOrder);
        if candidates == [] then Err(NoWorkerRoute)
        else
          var fallbackEnabled := policy.allowFallback && |candidates| > 1;
          Ok(Route(candidates, if fallbackEnabled then Min(policy.maxAttempts, Min(maxAttempts, |candidates|)) else 1,
                   fallbackEnabled))
  }

  function Ids(candidates: seq<Candidate>): (ids: seq<string>)
    ensures |ids| == |candidates| && forall i :: 0 <= i < |ids| ==> ids[i] == candidates[i].worker.id
  {
    seq(|candidates|, i requires 0 <= i < |candidates| => candidates[i].worker.id)
  }

  lemma {:induction false} InsertStaysDistinct(c: Candidate, sorted: seq<Candidate>, preferred: Option<string>, idOrder: IdOrder)
    requires DistinctWorkers(sorted) && forall i :: 0 <= i < |sorted| ==> sorted[i].worker.id != c.worker.id
    ensures DistinctWorkers(Insert(c, sorted, preferred, idOrder))
    ensures forall x :: x in Insert(c, sorted, preferred, idOrder) <==> x == c || x in sorted
  {
    if sorted != [] && !Precedes(c, sorted[0], preferred, idOrder) {
      InsertStaysDistinct(c, sorted[1..], preferred, idOrder);
      assert forall x :: x in sorted <==> x == sorted[0] || x in sorted[1..];
      var rest := Insert(c, sorted[1..], preferred, idOrder);
      forall i | 0 <= i < |rest| ensures rest[i].worker.id != sorted[0].worker.id { assert rest[i] in rest; }
    }
  }

  lemma {:induction false} SortStaysDistinct(candidates: seq<Candidate>, preferred: Option<string>, idOrder: IdOrder)
    requires DistinctWorkers(candidates)
    ensures DistinctWorkers(Sort(candidates, preferred, idOrder))
    ensures forall x :: x in Sort(candidates, preferred, idOrder) <==> x in candidates
  {
    if candidates != [] {
      var rest := Sort(candidates[1..], preferred, idOrder);
      SortStaysDistinct(candidates[1..], preferred, idOrder);
      forall i | 0 <= i < |rest| ensures rest[i].worker.id != candidates[0].worker.id {
        assert rest[i] in rest;
        var j :| 0 <= j < |candidates[1..]| && candidates[1..][j] == rest[i];
      }
      InsertStaysDistinct(candidates[0], rest, preferred, idOrder);
      assert forall x :: x in candidates <==> x == candidates[0] || x in candidates[1..];
    }
  }

  /** The ranking holds every worker once. */
  lemma RankingHasAll(workers: seq<Worker>, s: Strategy, preferred: Option<string>, default_: Option<string>,
                      evidence: EvidenceByWorker, idOrder: IdOrder)
    requires DistinctIdsOf(workers) && AllPossible(evidence)
    ensures var r := Ranking(workers, s, preferred, default_, evidence, idOrder);
            && |r| == |workers| && DistinctWorkers(r)
            && forall i :: 0 <= i < |r| ==> r[i].worker in workers
  {
    var adjusted := AdjustAll(Declared(workers, s, default_), s, evidence);
    var r := Sort(adjusted, preferred, idOrder);
    SortKeeps(adjusted, preferred, idOrder);
    SortStaysDistinct(adjusted, preferred, idOrder);
    forall i | 0 <= i < |r| ensures r[i].worker in workers {
      assert r[i] in r;
      var j :| 0 <= j < |adjusted| && adjusted[j] == r[i];
      assert workers[j] in workers;
    }
  }

  /** Every route is one the task journal can record, and offers only workers that qualify. */
  lemma RouteIsRecordable(workers: seq<Worker>, mode: string, policy: Policy, defaultWorkerId: Option<string>,
                          maxAttempts: nat, evidence: Option<(string, EvidenceByWorker)>, idOrder: IdOrder)
    requires DistinctIdsOf(workers) && (evidence.Some? ==> forall id :: id in evidence.value.1 ==> Possible(evidence.value.1[id]))
    requires |workers| <= 64 && forall w :: w in workers ==> Domain.Bounded(w.id, 64)
    requires 1 <= policy.maxAttempts <= 8 && 1 <= maxAttempts <= 8
    requires RouteWorkers(workers, mode, policy, defaultWorkerId, maxAttempts, evidence, idOrder).Ok?
    ensures var route := RouteWorkers(workers, mode, policy, defaultWorkerId, maxAttempts, evidence, idOrder).value;
            && TaskModel.ValidData(TaskModel.RouteSelected(Ids(route.candidates), route.maxAttempts))
            && (forall i :: 0 <= i < |route.candidates| ==>
                  Satisfies(route.candidates[i].worker, mode, {mode, "tool-calling"} + policy.requiredCapabilities, policy))
  {
    var required := {mode, "tool-calling"} + policy.requiredCapabilities;
    var qualified := Qualified(workers, mode, required, policy);
    QualifiedStayDistinct(workers, mode, required, policy);
    RankingHasAll(qualified, policy.strategy, policy.preferredWorkerId,
                  if policy.preferredWorkerId.Some? then policy.preferredWorkerId else defaultWorkerId,
                  if evidence.Some? then evidence.value.1 else map[], idOrder);
  }
}
