/** Phase 40.13.23 as a protocol: what a certificate means after any history of worker runs, and
    why the barrier never refuses a full team of successful workers. */
module PerformanceProtocol {
  import opened Options
  import opened Sorting
  import opened Sequences
  import opened Loops
  import opened ReportDirectory
  import opened IntegerStatistics
  import opened PerformanceRun
  import opened PerformanceMerge
  import opened PerformanceDensity

  function Worker(d: Digests): Job -> Option<Report> {
    (job: Job) => if JobAccepted(d, job) then Some(ReportOf(d, job)) else None
  }

  ghost function Merged(d: Digests, events: seq<Event<Job>>): seq<Report> {
    Listing(After(Worker(d), events))
  }

  /** The merger, run after these events, issues a certificate. */
  ghost predicate Issued(d: Digests, plan: Plan, inventory: Inventory, events: seq<Event<Job>>) {
    Legible(After(Worker(d), events)) && MergeAccepted(d, plan, inventory, Merged(d, events))
  }

  /** No worker ran on a different plan with the same digest. */
  ghost predicate PlanDigestUnique(d: Digests, plan: Plan, events: seq<Event<Job>>) {
    forall i :: 0 <= i < |events| && events[i].WorkerRan? && d.plan(events[i].job.plan) == d.plan(plan)
      ==> events[i].job.plan == plan
  }

  predicate IdsDistinct(plan: Plan) {
    Distinct(Map(ScenarioId, plan.scenarios))
  }

  predicate IsPhase(phase: string) {
    phase == WARMUP || phase == MEASURED
  }

  /** All merged rows. */
  function RowsIn(reports: seq<Report>): seq<Row> {
    AllRows(SortReports(reports))
  }

  lemma {:induction false} UniqueIds(plan: Plan, a: Scenario, b: Scenario)
    requires IdsDistinct(plan) && a in plan.scenarios && b in plan.scenarios && a.scenarioId == b.scenarioId
    ensures a == b
  {
    var xs := plan.scenarios;
    var i :| 0 <= i < |xs| && xs[i] == a;
    var j :| 0 <= j < |xs| && xs[j] == b;
    SameIdSamePlace(xs, i, j);
  }

  // ----- what a certificate means for each scenario

  lemma {:induction false} CertifiedStats(plan: Plan, inventory: Inventory, rows: seq<Row>, s: Scenario, engine: string)
    requires ClaimsHold(plan, inventory, rows) && s in plan.scenarios && engine in Engines(s)
    ensures EngineStats(RowsFor(rows, s.scenarioId), s, engine).Some?
  {
    ScenarioSummarized(rows, plan.scenarios, s);
    SummaryHasStats(RowsFor(rows, s.scenarioId), s, engine);
  }

  lemma {:induction false} ScenarioSummarized(rows: seq<Row>, scenarios: seq<Scenario>, s: Scenario)
    requires Outcomes(rows, scenarios).Some? && s in scenarios
    ensures Summarize(RowsFor(rows, s.scenarioId), s).Some?
  {
    var i :| 0 <= i < |scenarios| && scenarios[i] == s;
    assert Summarizer(rows)(scenarios[i]).Some?;
  }

  lemma {:induction false} SummaryHasStats(rows: seq<Row>, s: Scenario, engine: string)
    requires Summarize(rows, s).Some? && engine in Engines(s)
    ensures EngineStats(rows, s, engine).Some?
  {
    KnownEngine(s, engine);
  }

  /** In a certified run every required engine has exactly one row for each planned warm-up and
      measured trial of every scenario, and none beyond them. */
  lemma {:induction false} CertifiedTrials(
      d: Digests, plan: Plan, inventory: Inventory, reports: seq<Report>, s: Scenario, engine: string, phase: string,
      trial: int)
    requires MergeAccepted(d, plan, inventory, reports) && s in plan.scenarios && engine in Engines(s) && IsPhase(phase)
    ensures multiset(Map(RowKey, RowsIn(reports)))[Key(s.scenarioId, engine, phase, trial)]
      == if 0 <= trial < PlannedTrials(s, phase) then 1 else 0
  {
    CertifiedStats(plan, inventory, RowsIn(reports), s, engine);
    DenseMeansOnce(RowsIn(reports), Key(s.scenarioId, engine, phase, trial), PlannedTrials(s, phase));
  }

  lemma {:induction false} AcceptedReport(d: Digests, plan: Plan, reports: seq<Report>, m: nat)
    requires ReportsAccepted(d, plan, reports) && m < |SortReports(reports)|
    ensures HeaderAccepted(d.plan(plan), m, SortReports(reports)[m])
    ensures Each(RowTest(plan, Expected(plan.scenarios), m), SortReports(reports)[m].observations)
  {
    assert Acceptor(plan, d.plan(plan), Expected(plan.scenarios))(m, SortReports(reports)[m]);
  }

  /** Each merged row belongs to a planned scenario of its own partition, has the planned result and
      scaling evidence, and stays inside the resource envelope. */
  lemma {:induction false} MergedRow(d: Digests, plan: Plan, reports: seq<Report>, k: nat)
    returns (s: Scenario, m: nat, n: nat)
    requires ReportsAccepted(d, plan, reports) && k < |RowsIn(reports)|
    ensures s in plan.scenarios && s.scenarioId == RowsIn(reports)[k].scenarioId
    ensures WithinPlan(plan, s, RowsIn(reports)[k])
    ensures m == s.partition && m < |SortReports(reports)| && n < |SortReports(reports)[m].observations|
    ensures RowsIn(reports)[k] == SortReports(reports)[m].observations[n]
  {
    m, n := FlatOrigin(ObservationsOf, SortReports(reports), k);
    AcceptedReport(d, plan, reports, m);
    assert RowTest(plan, Expected(plan.scenarios), m)(SortReports(reports)[m].observations[n]);
    s := Expected(plan.scenarios)[RowsIn(reports)[k].scenarioId];
  }

  // ----- and what the workers behind it add

  lemma {:induction false} WorkerReport(d: Digests, job: Job, r: Report)
    requires Worker(d)(job) == Some(r)
    ensures JobAccepted(d, job) && r == ReportOf(d, job) && r.planSha256 == d.plan(job.plan)
  {
  }

  /** A reported row is the accepted answer to one scheduled request, on the planned descriptor. */
  lemma {:induction false} RowRequest(d: Digests, job: Job, n: nat) returns (q: Request)
    requires JobAccepted(d, job) && n < |ReportOf(d, job).observations|
    ensures RunTrial(job, q) == Some(ReportOf(d, job).observations[n])
    ensures q.scenario in job.plan.scenarios && q.scenario.partition == job.partition && Ready(d, job, q.scenario)
  {
    var requests, found := Schedule(d, job.plan, job.partition), JobRows(d, job).value;
    var sorted := SortRows(found);
    SameMembers(sorted, found);
    assert sorted[n] in found;
    var i :| 0 <= i < |found| && found[i] == sorted[n];
    q := requests[i];
    assert Runner(job)(requests[i]) == Some(found[i]);
    var m := ScheduledScenario(d, job.plan, job.partition, i);
    assert ReadyTest(d, job)(Assigned(job.plan, job.partition)[m]);
  }

  lemma {:induction false} ScheduledScenario(d: Digests, plan: Plan, partition: int, i: nat) returns (m: nat)
    requires i < |Schedule(d, plan, partition)|
    ensures m < |Assigned(plan, partition)| && Schedule(d, plan, partition)[i].scenario == Assigned(plan, partition)[m]
    ensures Assigned(plan, partition)[m] in plan.scenarios && Assigned(plan, partition)[m].partition == partition
  {
    var mine, n := Assigned(plan, partition), 0;
    m, n := FlatOrigin(ScenarioRequests(d), mine, i);
    ScenarioOfRequest(d, mine[m], n);
    var k := FilterFound(PartitionTest(partition), plan.scenarios, m);
  }

  /** Every certified row was measured by a successful worker of its scenario's partition, on this
      plan, with the planned descriptor and the required engine version: it took time and did work, so
      the rates the merger divides out are defined. */
  lemma {:induction false} CertifiedRowMeasured(
      d: Digests, plan: Plan, inventory: Inventory, events: seq<Event<Job>>, k: nat)
    returns (e: nat, q: Request)
    requires Issued(d, plan, inventory, events) && PlanDigestUnique(d, plan, events)
    requires k < |RowsIn(Merged(d, events))|
    ensures e < |events| && events[e].WorkerRan? && JobAccepted(d, events[e].job) && events[e].job.plan == plan
    ensures RunTrial(events[e].job, q) == Some(RowsIn(Merged(d, events))[k])
    ensures q.scenario in plan.scenarios && q.scenario.partition == events[e].job.partition
    ensures d.descriptor(Descriptor(events[e].job, q.scenario)) == q.scenario.inputSha256
    ensures RowKey(RowsIn(Merged(d, events))[k]) == RequestKey(q) && Measured(RowsIn(Merged(d, events))[k])
  {
    var reports := Merged(d, events);
    var s, m, n := MergedRow(d, plan, reports, k);
    e := MergedOrigin(d, plan, events, m);
    q := RowRequest(d, events[e].job, n);
  }

  lemma {:induction false} AllRowsMeasured(d: Digests, plan: Plan, inventory: Inventory, events: seq<Event<Job>>)
    requires Issued(d, plan, inventory, events) && PlanDigestUnique(d, plan, events)
    ensures Each(Measured, RowsIn(Merged(d, events)))
  {
    var rows := RowsIn(Merged(d, events));
    forall k | 0 <= k < |rows| ensures Measured(rows[k]) {
      var e, q := CertifiedRowMeasured(d, plan, inventory, events, k);
    }
  }

  lemma {:induction false} SortedReportListed(reports: seq<Report>, m: nat)
    requires m < |SortReports(reports)|
    ensures SortReports(reports)[m] in reports
  {
    SameMembers(SortReports(reports), reports);
    assert SortReports(reports)[m] in SortReports(reports);
  }

  lemma {:induction false} MergedOrigin(d: Digests, plan: Plan, events: seq<Event<Job>>, m: nat) returns (e: nat)
    requires ReportsAccepted(d, plan, Merged(d, events)) && PlanDigestUnique(d, plan, events)
    requires m < |SortReports(Merged(d, events))|
    ensures e < |events| && events[e].WorkerRan? && JobAccepted(d, events[e].job) && events[e].job.plan == plan
    ensures SortReports(Merged(d, events))[m] == ReportOf(d, events[e].job)
  {
    var reports, sorted := Merged(d, events), SortReports(Merged(d, events));
    SortedReportListed(reports, m);
    e := ListedReportOrigin(Worker(d), events, sorted[m]);
    WorkerReport(d, events[e].job, sorted[m]);
    AcceptedReport(d, plan, reports, m);
  }

  // ----- the certified numbers

  lemma {:induction false} PositiveMedian(rows: seq<Row>, s: Scenario, engine: string)
    requires Each(Measured, rows) && EngineStats(RowsFor(rows, s.scenarioId), s, engine).Some?
    ensures EngineStats(RowsFor(rows, s.scenarioId), s, engine).value.p50 > 0
  {
    var measured := Selected(RowsFor(rows, s.scenarioId), engine, MEASURED);
    var durations := Map(DurationOf, measured);
    var r := Percentile(durations, 50);
    var k :| 0 <= k < |durations| && durations[k] == r;
    var i := SelectedFound(rows, s.scenarioId, engine, MEASURED, k);
    assert Measured(rows[i]);
  }

  /** Certified percentiles are ordered, whoever wrote the reports. */
  lemma {:induction false} PercentilesOrdered(
      plan: Plan, inventory: Inventory, rows: seq<Row>, s: Scenario, engine: string)
    requires ClaimsHold(plan, inventory, rows) && s in plan.scenarios && engine in Engines(s)
    ensures EngineStats(RowsFor(rows, s.scenarioId), s, engine).Some?
    ensures var t := EngineStats(RowsFor(rows, s.scenarioId), s, engine).value;
      t.p50 <= t.p95 <= t.p99 && t.measuredTrials == s.measuredTrials
  {
    CertifiedStats(plan, inventory, rows, s, engine);
    var measured := Selected(RowsFor(rows, s.scenarioId), engine, MEASURED);
    NearestMonotone(Map(DurationOf, measured), 50, 95);
    NearestMonotone(Map(DurationOf, measured), 95, 99);
  }

  lemma {:induction false} RatiosPositive(rows: seq<Row>, scenarios: seq<Scenario>)
    requires Outcomes(rows, scenarios).Some? && Each(Measured, rows)
    ensures Positive(Flat(RatiosIn, Outcomes(rows, scenarios).value))
  {
    var ratios := Flat(RatiosIn, Outcomes(rows, scenarios).value);
    forall k | 0 <= k < |ratios| ensures ratios[k].jena > 0 && ratios[k].ngkg > 0 {
      RatioPositive(rows, scenarios, k);
    }
  }

  lemma {:induction false} RatioPositive(rows: seq<Row>, scenarios: seq<Scenario>, k: nat)
    requires Outcomes(rows, scenarios).Some? && Each(Measured, rows)
    requires k < |Flat(RatiosIn, Outcomes(rows, scenarios).value)|
    ensures var x := Flat(RatiosIn, Outcomes(rows, scenarios).value)[k];
      x.jena > 0 && x.ngkg > 0
  {
    var i := RatioOrigin(rows, scenarios, k);
    SummaryMedians(rows, scenarios[i]);
    OutcomePair(RowsFor(rows, scenarios[i].scenarioId), scenarios[i]);
  }

  lemma {:induction false} SummaryMedians(rows: seq<Row>, s: Scenario)
    requires Each(Measured, rows) && Summarize(RowsFor(rows, s.scenarioId), s).Some? && s.requireExternalJena
    ensures var o := Summarize(RowsFor(rows, s.scenarioId), s).value;
      o.jena.Some? && o.jena.value.p50 > 0 && o.ngkg.p50 > 0
  {
    SummaryHasStats(RowsFor(rows, s.scenarioId), s, NGKG);
    SummaryHasStats(RowsFor(rows, s.scenarioId), s, JENA);
    PositiveMedian(rows, s, NGKG);
    PositiveMedian(rows, s, JENA);
  }

  /** The mean behind a certificate is the geometric mean of positive speed ratios, and it lies between
      any bounds of the speedups of the compared scenarios. */
  lemma {:induction false} CertifiedMeanBetween(
    d: Digests, plan: Plan, inventory: Inventory, events: seq<Event<Job>>, lo: nat, hi: nat) returns (r: nat)
    requires Issued(d, plan, inventory, events) && PlanDigestUnique(d, plan, events)
    requires forall i :: 0 <= i < |plan.scenarios| && plan.scenarios[i].requireExternalJena ==>
      SpeedupWithin(RowsIn(Merged(d, events)), plan.scenarios[i], lo, hi)
    ensures inventory.gates.geometricMeanMilliX <= r && lo <= r <= hi
    ensures IsGeometricMean(r, Map(PairOf, Flat(RatiosIn, Outcomes(RowsIn(Merged(d, events)), plan.scenarios).value)))
  {
    AllRowsMeasured(d, plan, inventory, events);
    r := GateRoot(plan, inventory, RowsIn(Merged(d, events)));
    MeanBetween(RowsIn(Merged(d, events)), plan.scenarios, r, lo, hi);
  }

  lemma {:induction false} MeanBetween(rows: seq<Row>, scenarios: seq<Scenario>, r: nat, lo: nat, hi: nat)
    requires Outcomes(rows, scenarios).Some? && Each(Measured, rows)
    requires Flat(RatiosIn, Outcomes(rows, scenarios).value) != []
    requires IsRatioRoot(r, Flat(RatiosIn, Outcomes(rows, scenarios).value))
    requires forall i :: 0 <= i < |scenarios| && scenarios[i].requireExternalJena ==>
      SpeedupWithin(rows, scenarios[i], lo, hi)
    ensures lo <= r <= hi && IsGeometricMean(r, Map(PairOf, Flat(RatiosIn, Outcomes(rows, scenarios).value)))
  {
    var ratios := Flat(RatiosIn, Outcomes(rows, scenarios).value);
    RatiosPositive(rows, scenarios);
    RatioRootIsGeometricMean(r, ratios);
    var pairs := Map(PairOf, ratios);
    forall k | 0 <= k < |ratios| ensures lo <= SpeedupMilliX(pairs[k]) <= hi {
      assert pairs[k] == PairOf(ratios[k]);
      RatioSpeedup(rows, scenarios, k, lo, hi);
    }
    GeometricMeanBetween(r, pairs, lo, hi);
  }

  lemma {:induction false} RatioSpeedup(rows: seq<Row>, scenarios: seq<Scenario>, k: nat, lo: nat, hi: nat)
    requires Outcomes(rows, scenarios).Some? && Each(Measured, rows)
    requires k < |Flat(RatiosIn, Outcomes(rows, scenarios).value)|
    requires forall i :: 0 <= i < |scenarios| && scenarios[i].requireExternalJena ==>
      SpeedupWithin(rows, scenarios[i], lo, hi)
    ensures var pair := PairOf(Flat(RatiosIn, Outcomes(rows, scenarios).value)[k]);
      pair.ngkg > 0 && lo <= SpeedupMilliX(pair) <= hi
  {
    RatioPositive(rows, scenarios, k);
    var i := RatioOrigin(rows, scenarios, k);
    assert SpeedupWithin(rows, scenarios[i], lo, hi);
    OutcomePair(RowsFor(rows, scenarios[i].scenarioId), scenarios[i]);
  }

  lemma {:induction false} GateRoot(plan: Plan, inventory: Inventory, rows: seq<Row>) returns (r: nat)
    requires ClaimsHold(plan, inventory, rows)
    ensures Outcomes(rows, plan.scenarios).Some? && Flat(RatiosIn, Outcomes(rows, plan.scenarios).value) != []
    ensures IsRatioRoot(r, Flat(RatiosIn, Outcomes(rows, plan.scenarios).value))
    ensures r >= inventory.gates.geometricMeanMilliX
  {
    var ratios := Flat(RatiosIn, Outcomes(rows, plan.scenarios).value);
    r :| IsRatioRoot(r, ratios) && r >= inventory.gates.geometricMeanMilliX;
  }

  /** The reported speedup of a compared scenario is within bounds. */
  predicate SpeedupWithin(rows: seq<Row>, s: Scenario, lo: int, hi: int) {
    var o := Summarize(RowsFor(rows, s.scenarioId), s);
    o.Some? && o.value.speedup.Some? && lo <= o.value.speedup.value <= hi
  }

  /** So the gate on the mean is reached by the speedup of some compared scenario. */
  lemma {:induction false} SomeScenarioReachesTheGate(
      d: Digests, plan: Plan, inventory: Inventory, events: seq<Event<Job>>)
    returns (i: nat)
    requires Issued(d, plan, inventory, events) && PlanDigestUnique(d, plan, events)
    ensures i < |plan.scenarios| && plan.scenarios[i].requireExternalJena
    ensures var o := Summarize(RowsFor(RowsIn(Merged(d, events)), plan.scenarios[i].scenarioId), plan.scenarios[i]);
      o.Some? && o.value.speedup.Some? && o.value.speedup.value >= inventory.gates.geometricMeanMilliX
  {
    var rows := RowsIn(Merged(d, events));
    var ratios := Flat(RatiosIn, Outcomes(rows, plan.scenarios).value);
    AllRowsMeasured(d, plan, inventory, events);
    RatiosPositive(rows, plan.scenarios);
    var r := GateRoot(plan, inventory, rows);
    RatioRootIsGeometricMean(r, ratios);
    var k := FastestPair(r, Map(PairOf, ratios));
    i := RatioOrigin(rows, plan.scenarios, k);
    OutcomePair(RowsFor(rows, plan.scenarios[i].scenarioId), plan.scenarios[i]);
    assert Map(PairOf, ratios)[k] == PairOf(ratios[k]);
  }

  lemma {:induction false} FastestPair(r: nat, pairs: seq<Pair>) returns (k: nat)
    requires pairs != [] && AllTimed(pairs) && IsGeometricMean(r, pairs)
    ensures k < |pairs| && SpeedupMilliX(pairs[k]) >= r
  {
    if r == 0 { return 0; }
    if forall i :: 0 <= i < |pairs| ==> SpeedupMilliX(pairs[i]) <= r - 1 {
      GeometricMeanBetween(r, pairs, 0, r - 1);
    }
    k :| 0 <= k < |pairs| && SpeedupMilliX(pairs[k]) > r - 1;
  }

  // ----- file names do not matter

  /** However the report files are named, the same reports give the same verdict on the same rows. */
  lemma {:induction false} FileOrderIrrelevant(
      d: Digests, plan: Plan, inventory: Inventory, a: seq<Report>, b: seq<Report>)
    requires multiset(a) == multiset(b)
    ensures MergeAccepted(d, plan, inventory, a) <==> MergeAccepted(d, plan, inventory, b)
    ensures MergeAccepted(d, plan, inventory, a) ==> RowsIn(a) == RowsIn(b)
  {
    SameMembers(a, b);
    if ReportsAccepted(d, plan, a) { SortsAlike(d, plan, a, b); }
    if ReportsAccepted(d, plan, b) { SortsAlike(d, plan, b, a); }
  }

  lemma {:induction false} SortsAlike(d: Digests, plan: Plan, a: seq<Report>, b: seq<Report>)
    requires multiset(a) == multiset(b) && ReportsAccepted(d, plan, a)
    ensures SortReports(a) == SortReports(b)
  {
    var x, y := SortReports(a), SortReports(b);
    forall r, q | r in x && q in x && ReportLe(r, q) && ReportLe(q, r) ensures r == q {
      var i :| 0 <= i < |x| && x[i] == r;
      var j :| 0 <= j < |x| && x[j] == q;
      AcceptedReport(d, plan, a, i);
      AcceptedReport(d, plan, a, j);
    }
    SortedUnique(x, y, ReportLe);
  }
}
