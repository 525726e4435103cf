/** Phase 40.13.23: the merger, from the report barrier to the claim gates. */
module PerformanceMerge {
  import opened Options
  import opened Orders
  import opened Sorting
  import opened Sequences
  import opened Loops
  import opened Partitions
  import opened IntegerStatistics
  import opened PerformanceRun

  // ----- the report barrier

  function Expected(xs: seq<Scenario>): (m: map<string, Scenario>)
    ensures forall id :: id in m ==> m[id].scenarioId == id && m[id] in xs
    ensures forall s :: s in xs ==> s.scenarioId in m
  {
    if xs == [] then map[] else
      var s := xs[|xs|-1];
      Expected(xs[..|xs|-1])[s.scenarioId := s]
  }

  predicate RowAccepted(plan: Plan, expected: map<string, Scenario>, index: int, row: Row) {
    && row.scenarioId in expected && expected[row.scenarioId].partition == index
    && WithinPlan(plan, expected[row.scenarioId], row)
  }

  function RowTest(plan: Plan, expected: map<string, Scenario>, index: int): Row -> bool {
    (row: Row) => RowAccepted(plan, expected, index, row)
  }

  predicate HeaderAccepted(planSha: string, index: int, r: Report) {
    r.formatVersion == 1 && r.planSha256 == planSha && r.partition == index && r.complete && r.workerId != ""
  }

  function Acceptor(plan: Plan, planSha: string, expected: map<string, Scenario>): (int, Report) -> bool {
    (index: int, r: Report) => HeaderAccepted(planSha, index, r) && Each(RowTest(plan, expected, index), r.observations)
  }

  predicate ReportLe(a: Report, b: Report) {
    a.partition <= b.partition
  }

  function SortReports(reports: seq<Report>): (r: seq<Report>)
    ensures multiset(r) == multiset(reports) && SortedBy(r, ReportLe) && |r| == |reports|
  {
    var r := SortBy(reports, ReportLe);
    SameMembers(r, reports);
    r
  }

  function WorkerOf(r: Report): string { r.workerId }
  function ObservationsOf(r: Report): seq<Row> { r.observations }

  /** Every merged observation, partition after partition. */
  function AllRows(sorted: seq<Report>): seq<Row> {
    Flat(ObservationsOf, sorted)
  }

  predicate ReportsAccepted(d: Digests, plan: Plan, reports: seq<Report>) {
    var sorted := SortReports(reports);
    && |reports| == plan.partitionCount
    && AllAccepted(Acceptor(plan, d.plan(plan), Expected(plan.scenarios)), sorted)
    && Distinct(Map(WorkerOf, sorted))
  }

  // ----- selecting rows

  function IdIs(id: string): Key -> bool { (k: Key) => k.scenarioId == id }
  function EngineIs(engine: string): Key -> bool { (k: Key) => k.engine == engine }
  function PhaseIs(phase: string): Key -> bool { (k: Key) => k.phase == phase }

  /** `scenario_rows[id]` */
  function RowsFor(rows: seq<Row>, id: string): seq<Row> {
    Filter(Compose(IdIs(id), RowKey), rows)
  }

  function RowsOfEngine(rows: seq<Row>, engine: string): seq<Row> {
    Filter(Compose(EngineIs(engine), RowKey), rows)
  }

  function RowsOfPhase(rows: seq<Row>, phase: string): seq<Row> {
    Filter(Compose(PhaseIs(phase), RowKey), rows)
  }

  function TrialOf(row: Row): int { row.trial }

  /** `dense`: the selected trials are exactly 0, 1, ..., count - 1. */
  predicate Dense(selected: seq<Row>, count: int) {
    |selected| == count && Sorted(Map(TrialOf, selected)) == Indices(count)
  }

  // ----- the statistics of one engine

  function DurationOf(row: Row): int { row.durationNanoseconds }

  /** The two rates divide, and a zero divisor raises. */
  function ThroughputOf(row: Row): int {
    if row.durationNanoseconds == 0 then 0 else FloorDiv(row.workItems * 1_000_000_000, row.durationNanoseconds)
  }

  function CostOf(row: Row): int {
    if row.workItems == 0 then 0 else FloorDiv(row.costMicroUsd * 1_000_000, row.workItems)
  }

  predicate Divisible(row: Row) {
    row.durationNanoseconds != 0 && row.workItems != 0
  }

  function NodesOf(row: Row): int { row.nodesActivated }
  function RssOf(row: Row): int { row.peakRssBytes }

  function Max(values: seq<int>): (m: int)
    requires values != []
    ensures m in values && forall v :: v in values ==> v <= m
  {
    if |values| == 1 then values[0] else
      var rest := Max(values[1..]);
      assert values == [values[0]] + values[1..];
      if rest < values[0] then values[0] else rest
  }

  function Percentile(values: seq<int>, p: nat): (r: int)
    requires values != [] && 1 <= p <= 100
    ensures r in values && Nearest(values, p) == Some(r)
  {
    NearestIsOrderStatistic(values, p);
    Nearest(values, p).value
  }

  datatype Stats = Stats(
    engine: string, measuredTrials: nat, p50: int, p95: int, p99: int, medianThroughput: int, medianCost: int,
    maximumNodes: int, maximumRss: int)

  function StatsOf(engine: string, measured: seq<Row>): Stats
    requires measured != []
  {
    var durations := Map(DurationOf, measured);
    Stats(engine, |measured|, Percentile(durations, 50), Percentile(durations, 95), Percentile(durations, 99),
          Percentile(Map(ThroughputOf, measured), 50), Percentile(Map(CostOf, measured), 50),
          Max(Map(NodesOf, measured)), Max(Map(RssOf, measured)))
  }

  function EngineStats(rows: seq<Row>, s: Scenario, engine: string): Option<Stats> {
    var mine := RowsOfEngine(rows, engine);
    var measured := RowsOfPhase(mine, MEASURED);
    if !Dense(RowsOfPhase(mine, WARMUP), s.warmupTrials) || !Dense(measured, s.measuredTrials) then None
    else if !Each(Divisible, measured) || measured == [] then None
    else Some(StatsOf(engine, measured))
  }

  // ----- one scenario

  datatype Outcome = Outcome(scenario: Scenario, ngkg: Stats, jena: Option<Stats>, speedup: Option<int>)

  function ArtifactOf(row: Row): Option<string> { row.artifactRootSha256 }

  function MeasuredNgkg(rows: seq<Row>): seq<Row> {
    RowsOfPhase(RowsOfEngine(rows, NGKG), MEASURED)
  }

  predicate MeetsThresholds(o: Outcome) {
    var s := o.scenario;
    && (s.maximumP95Nanoseconds == 0 || o.ngkg.p95 <= s.maximumP95Nanoseconds)
    && o.ngkg.medianThroughput >= s.minimumThroughputPerSecond
    && (s.minimumSpeedupMilliX == 0 || (o.speedup.Some? && o.speedup.value >= s.minimumSpeedupMilliX))
    && (s.maximumCostMicroUsdPerMillion == 0 || o.ngkg.medianCost <= s.maximumCostMicroUsdPerMillion)
  }

  function Speedup(jena: Option<Stats>, ngkg: Stats): Option<int> {
    if jena.None? || ngkg.p50 == 0 then None else Some(FloorDiv(jena.value.p50 * 1000, ngkg.p50))
  }

  function Summarize(rows: seq<Row>, s: Scenario): Option<Outcome> {
    if |Members(Map(ArtifactOf, MeasuredNgkg(rows)))| > 1 then None else
      var ngkg := EngineStats(rows, s, NGKG);
      var jena := if s.requireExternalJena then EngineStats(rows, s, JENA) else None;
      if ngkg.None? || (s.requireExternalJena && jena.None?) then None else
        var o := Outcome(s, ngkg.value, jena, Speedup(jena, ngkg.value));
        if MeetsThresholds(o) then Some(o) else None
  }

  function Summarizer(rows: seq<Row>): Scenario -> Option<Outcome> {
    (s: Scenario) => Summarize(RowsFor(rows, s.scenarioId), s)
  }

  function Outcomes(rows: seq<Row>, scenarios: seq<Scenario>): Option<seq<Outcome>> {
    Traverse(Summarizer(rows), scenarios)
  }

  /** The two medians behind a reported speedup. */
  function RatiosIn(o: Outcome): seq<Ratio> {
    if o.speedup.Some? && o.jena.Some? then [Ratio(o.jena.value.p50, o.ngkg.p50)] else []
  }

  function HotIn(o: Outcome): seq<int> {
    if o.speedup.Some? && o.scenario.cacheState == "hot" then [o.speedup.value] else []
  }

  // ----- capacity groups

  function ScenarioIn(o: Outcome): Scenario { o.scenario }

  function GroupIs(name: string): Scenario -> bool {
    (s: Scenario) => s.capacityGroup == name
  }

  /** The scale points of one group, in plan order. */
  function GroupPoints(name: string, outcomes: seq<Outcome>): seq<Outcome> {
    Filter(Compose(GroupIs(name), ScenarioIn), outcomes)
  }

  function ScaleOf(o: Outcome): int { o.scenario.scaleOrdinal }

  predicate ScaleLe(a: Outcome, b: Outcome) { ScaleOf(a) <= ScaleOf(b) }

  function SortPoints(points: seq<Outcome>): (r: seq<Outcome>)
    ensures multiset(r) == multiset(points) && SortedBy(r, ScaleLe) && |r| == |points|
  {
    var r := SortBy(points, ScaleLe);
    SameMembers(r, points);
    r
  }

  /** The artifact roots measured at one scale point. */
  function RootsAt(rows: seq<Row>): Outcome -> seq<Option<string>> {
    (o: Outcome) => Map(ArtifactOf, MeasuredNgkg(RowsFor(rows, o.scenario.scenarioId)))
  }

  /** The scale ordinals of a group are 0, 1, ..., n - 1. */
  predicate DenseScale(points: seq<Outcome>) {
    Map(ScaleOf, SortPoints(points)) == Indices(|points|)
  }

  predicate GroupAccepted(rows: seq<Row>, points: seq<Outcome>) {
    var sorted := SortPoints(points);
    && DenseScale(points)
    && (|sorted| > 1 ==> sorted[|sorted|-1].ngkg.medianThroughput >= sorted[0].ngkg.medianThroughput)
    && |Members(Flat(RootsAt(rows), sorted)) - {None}| <= 1
  }

  function GroupNames(outcomes: seq<Outcome>): set<string> {
    set i | 0 <= i < |outcomes| :: outcomes[i].scenario.capacityGroup
  }

  predicate GroupsAccepted(rows: seq<Row>, outcomes: seq<Outcome>) {
    forall name :: name in GroupNames(outcomes) ==> GroupAccepted(rows, GroupPoints(name, outcomes))
  }

  // ----- claim gates

  predicate OfFamily(family: string, s: Scenario) { s.family == family }

  function FamilyTest(family: string): Scenario -> bool {
    (s: Scenario) => OfFamily(family, s)
  }

  function ThroughputIn(o: Outcome): int { o.ngkg.medianThroughput }
  function ConcurrencyOf(s: Scenario): int { s.concurrency }

  predicate Ingested(gates: Gates, row: Row) {
    row.inputBytes >= 100 * 1024 * 1024 * 1024 && row.durationNanoseconds <= gates.ingestMaximumSeconds * 1_000_000_000
  }

  function IngestTest(gates: Gates): Row -> bool {
    (row: Row) => Ingested(gates, row)
  }

  function MeasuredAt(rows: seq<Row>): Scenario -> seq<Row> {
    (s: Scenario) => MeasuredNgkg(RowsFor(rows, s.scenarioId))
  }

  predicate ScaleGates(gates: Gates, scenarios: seq<Scenario>, rows: seq<Row>, outcomes: seq<Outcome>) {
    var ingestion := Flat(MeasuredAt(rows), Filter(FamilyTest("trig-ingestion"), scenarios));
    var paths := Map(ThroughputIn, Filter(Compose(FamilyTest("property-path"), ScenarioIn), outcomes));
    var users := Map(ConcurrencyOf, Filter(FamilyTest("concurrent-sparql"), scenarios));
    && Filter(IngestTest(gates), ingestion) != []
    && paths != [] && Max(paths) >= gates.pathEdgesPerSecond
    && users != [] && Max(users) >= gates.concurrentUsers
  }

  ghost predicate SpeedGates(gates: Gates, outcomes: seq<Outcome>) {
    var ratios, hot := Flat(RatiosIn, outcomes), Flat(HotIn, outcomes);
    && ratios != [] && (exists r: nat :: IsRatioRoot(r, ratios) && r >= gates.geometricMeanMilliX)
    && hot != [] && Percentile(hot, 50) >= gates.hotMedianMilliX
  }

  function Families(scenarios: seq<Scenario>): set<string> {
    set i | 0 <= i < |scenarios| :: scenarios[i].family
  }

  ghost predicate ClaimsHold(plan: Plan, inventory: Inventory, rows: seq<Row>) {
    && Families(plan.scenarios) == inventory.requiredFamilies
    && Outcomes(rows, plan.scenarios).Some?
    && var outcomes := Outcomes(rows, plan.scenarios).value;
       && GroupsAccepted(rows, outcomes) && SpeedGates(inventory.gates, outcomes)
       && ScaleGates(inventory.gates, plan.scenarios, rows, outcomes)
  }

  ghost predicate MergeAccepted(d: Digests, plan: Plan, inventory: Inventory, reports: seq<Report>) {
    && d.inventory(inventory) == plan.benchmarkInventorySha256
    && ReportsAccepted(d, plan, reports)
    && ClaimsHold(plan, inventory, AllRows(SortReports(reports)))
  }

  datatype Certificate = Certificate(planSha256: string, scenarios: seq<Outcome>, qualifiedFamilies: seq<string>)

  // ----- the merger's loops

  function Lookup(table: map<string, seq<Row>>, id: string): seq<Row> {
    if id in table then table[id] else []
  }

  /** The `scenario_rows` dictionary holds the given rows. */
  ghost predicate Holds(table: map<string, seq<Row>>, rows: seq<Row>) {
    forall id :: Lookup(table, id) == RowsFor(rows, id)
  }

  /** The inner loop over one report's rows. */
  method CollectRows(test: Row -> bool, ghost before: seq<Row>, rows: seq<Row>, start: map<string, seq<Row>>)
    returns (ok: bool, table: map<string, seq<Row>>)
    requires Holds(start, before)
    ensures ok <==> Each(test, rows)
    ensures ok ==> Holds(table, before + rows)
  {
    table := start;
    assert before + rows[..0] == before;
    for i := 0 to |rows|
      invariant Each(test, rows[..i])
      invariant Holds(table, before + rows[..i])
    {
      EachStep(test, rows, i);
      if !test(rows[i]) { return false, table; }
      var id := rows[i].scenarioId;
      HoldsStep(table, before + rows[..i], rows[i]);
      assert before + rows[..i+1] == before + rows[..i] + [rows[i]];
      table := table[id := Lookup(table, id) + [rows[i]]];
    }
    assert rows[..|rows|] == rows;
    ok := true;
  }

  lemma {:induction false} HoldsStep(table: map<string, seq<Row>>, rows: seq<Row>, row: Row)
    requires Holds(table, rows)
    ensures Holds(table[row.scenarioId := Lookup(table, row.scenarioId) + [row]], rows + [row])
  {
    var next := table[row.scenarioId := Lookup(table, row.scenarioId) + [row]];
    forall id ensures Lookup(next, id) == RowsFor(rows + [row], id) {
      FilterSnoc(Compose(IdIs(id), RowKey), rows, row);
      assert Compose(IdIs(id), RowKey)(row) == IdIs(id)(RowKey(row));
      assert Lookup(table, id) == RowsFor(rows, id);
    }
  }

  /** The outer loop, with its `workers` set. */
  method CollectReports(plan: Plan, planSha: string, expected: map<string, Scenario>, sorted: seq<Report>)
    returns (ok: bool, table: map<string, seq<Row>>)
    ensures ok <==> AllAccepted(Acceptor(plan, planSha, expected), sorted) && Distinct(Map(WorkerOf, sorted))
    ensures ok ==> Holds(table, AllRows(sorted))
  {
    var workers: set<string> := {};
    table := map[];
    assert sorted[..0] == [];
    for i := 0 to |sorted|
      invariant AllAccepted(Acceptor(plan, planSha, expected), sorted[..i])
      invariant Distinct(Map(WorkerOf, sorted[..i])) && workers == Members(Map(WorkerOf, sorted[..i]))
      invariant Holds(table, AllRows(sorted[..i]))
    {
      var r := sorted[i];
      MapPrefix(WorkerOf, sorted, i);
      AcceptedStep(Acceptor(plan, planSha, expected), sorted, i);
      if !HeaderAccepted(planSha, i, r) || r.workerId in workers { return false, table; }
      workers := workers + {r.workerId};
      FlatStep(ObservationsOf, sorted, i);
      ok, table := CollectRows(RowTest(plan, expected, i), AllRows(sorted[..i]), r.observations, table);
      if !ok { return; }
    }
    assert sorted[..|sorted|] == sorted;
    ok := true;
  }

  /** The loop over the planned scenarios. */
  method SummarizeAll(table: map<string, seq<Row>>, ghost rows: seq<Row>, scenarios: seq<Scenario>)
    returns (outcomes: Option<seq<Outcome>>, speedups: seq<Ratio>, hot: seq<int>)
    requires Holds(table, rows)
    ensures outcomes == Outcomes(rows, scenarios)
    ensures outcomes.Some? ==> speedups == Flat(RatiosIn, outcomes.value) && hot == Flat(HotIn, outcomes.value)
  {
    var summaries := [];
    speedups, hot := [], [];
    assert scenarios[..0] == [];
    for i := 0 to |scenarios|
      invariant Outcomes(rows, scenarios[..i]) == Some(summaries)
      invariant speedups == Flat(RatiosIn, summaries) && hot == Flat(HotIn, summaries)
    {
      TraverseStep(Summarizer(rows), scenarios, i, summaries);
      assert Lookup(table, scenarios[i].scenarioId) == RowsFor(rows, scenarios[i].scenarioId);
      var o := Summarize(Lookup(table, scenarios[i].scenarioId), scenarios[i]);
      if o.None? { return None, speedups, hot; }
      var more := summaries + [o.value];
      assert more[..|summaries|] == summaries;
      speedups, hot := speedups + RatiosIn(o.value), hot + HotIn(o.value);
      summaries := more;
    }
    assert scenarios[..|scenarios|] == scenarios;
    outcomes := Some(summaries);
  }

  // ----- the medians are no zeros, so the speedups are defined

  lemma {:induction false} EngineMedian(rows: seq<Row>, s: Scenario, engine: string)
    requires EngineStats(rows, s, engine).Some?
    ensures EngineStats(rows, s, engine).value.p50 != 0
  {
    var measured := RowsOfPhase(RowsOfEngine(rows, engine), MEASURED);
    var durations := Map(DurationOf, measured);
    var r := Percentile(durations, 50);
    var i :| 0 <= i < |durations| && durations[i] == r;
    assert Divisible(measured[i]);
  }

  /** A certified scenario has a speedup exactly when it was compared, and it is the ratio the
      geometric mean takes. */
  lemma {:induction false} OutcomePair(rows: seq<Row>, s: Scenario)
    requires Summarize(rows, s).Some?
    ensures var o := Summarize(rows, s).value;
      && o.scenario == s && o.ngkg.p50 != 0
      && (o.speedup.Some? <==> s.requireExternalJena) && (o.jena.Some? <==> s.requireExternalJena)
      && (o.speedup.Some? ==>
            && RatiosIn(o) == [Ratio(o.jena.value.p50, o.ngkg.p50)]
            && o.speedup.value == FloorDiv(o.jena.value.p50 * 1000, o.ngkg.p50))
      && (o.speedup.None? ==> RatiosIn(o) == [])
  {
    EngineMedian(rows, s, NGKG);
  }

  /** The ratios are the compared scenarios. */
  lemma {:induction false} RatioOrigin(rows: seq<Row>, scenarios: seq<Scenario>, k: nat) returns (i: nat)
    requires Outcomes(rows, scenarios).Some? && k < |Flat(RatiosIn, Outcomes(rows, scenarios).value)|
    ensures i < |scenarios| && scenarios[i].requireExternalJena
    ensures Summarize(RowsFor(rows, scenarios[i].scenarioId), scenarios[i]) == Some(Outcomes(rows, scenarios).value[i])
    ensures RatiosIn(Outcomes(rows, scenarios).value[i]) == [Flat(RatiosIn, Outcomes(rows, scenarios).value)[k]]
    ensures Flat(RatiosIn, Outcomes(rows, scenarios).value)[k].ngkg != 0
  {
    var outcomes := Outcomes(rows, scenarios).value;
    var n;
    i, n := FlatOrigin(RatiosIn, outcomes, k);
    assert Summarizer(rows)(scenarios[i]) == Some(outcomes[i]);
    OutcomePair(RowsFor(rows, scenarios[i].scenarioId), scenarios[i]);
  }

  lemma {:induction false} RatiosDefined(rows: seq<Row>, scenarios: seq<Scenario>)
    requires Outcomes(rows, scenarios).Some?
    ensures NoZero(Flat(RatiosIn, Outcomes(rows, scenarios).value))
  {
    var ratios := Flat(RatiosIn, Outcomes(rows, scenarios).value);
    forall k | 0 <= k < |ratios| ensures ratios[k].ngkg != 0 {
      var i := RatioOrigin(rows, scenarios, k);
    }
  }

  /** The two speed gates, over the lists the scenario loop built. */
  method CheckSpeed(gates: Gates, speedups: seq<Ratio>, hot: seq<int>) returns (ok: bool, mean: nat)
    requires NoZero(speedups)
    ensures ok <==>
      && speedups != [] && (exists r: nat :: IsRatioRoot(r, speedups) && r >= gates.geometricMeanMilliX)
      && hot != [] && Percentile(hot, 50) >= gates.hotMedianMilliX
    ensures ok ==> IsRatioRoot(mean, speedups)
  {
    mean := 0;
    if speedups == [] { return false, mean; }
    var root := GeometricSpeedup(speedups);
    if root.None? { return false, mean; }
    mean := root.value;
    forall r: nat | IsRatioRoot(r, speedups) ensures r == mean {
      RootUnique(r, mean, FloorDiv(JenaProduct(speedups), NgkgProduct(speedups)), |speedups|);
    }
    if mean < gates.geometricMeanMilliX { return false, mean; }
    if hot == [] || Percentile(hot, 50) < gates.hotMedianMilliX { return false, mean; }
    ok := true;
  }

  /** Everything after the report barrier. */
  method CheckClaims(plan: Plan, inventory: Inventory, table: map<string, seq<Row>>, rows: seq<Row>)
    returns (outcomes: Option<seq<Outcome>>)
    requires Holds(table, rows)
    ensures outcomes == if ClaimsHold(plan, inventory, rows) then Outcomes(rows, plan.scenarios) else None
  {
    if Families(plan.scenarios) != inventory.requiredFamilies { return None; }
    var found, speedups, hot := SummarizeAll(table, rows, plan.scenarios);
    if found.None? { return None; }
    if !GroupsAccepted(rows, found.value) { return None; }
    RatiosDefined(rows, plan.scenarios);
    var fast, mean := CheckSpeed(inventory.gates, speedups, hot);
    if !fast || !ScaleGates(inventory.gates, plan.scenarios, rows, found.value) { return None; }
    return found;
  }

  method Merge(d: Digests, plan: Plan, inventory: Inventory, reports: seq<Report>)
    returns (certificate: Option<Certificate>)
    ensures certificate.Some? <==> MergeAccepted(d, plan, inventory, reports)
    ensures certificate.Some? ==>
      Outcomes(AllRows(SortReports(reports)), plan.scenarios) == Some(certificate.value.scenarios)
    ensures certificate.Some? ==> certificate.value.planSha256 == d.plan(plan)
    ensures certificate.Some? ==> certificate.value.qualifiedFamilies == SortedSet(Families(plan.scenarios))
  {
    if d.inventory(inventory) != plan.benchmarkInventorySha256 || |reports| != plan.partitionCount { return None; }
    var sorted := SortReports(reports);
    var ok, table := CollectReports(plan, d.plan(plan), Expected(plan.scenarios), sorted);
    if !ok { return None; }
    var outcomes := CheckClaims(plan, inventory, table, AllRows(sorted));
    if outcomes.None? { return None; }
    return Some(Certificate(d.plan(plan), outcomes.value, SortedSet(Families(plan.scenarios))));
  }
}
