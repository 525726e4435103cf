/** Phase 40.13.23: what the published thresholds mean for the individual trials. */
module PerformanceClaims {
  import opened Options
  import opened Sorting
  import opened Sequences
  import opened Loops
  import opened ReportDirectory
  import opened IntegerStatistics
  import opened PerformanceRun
  import opened PerformanceMerge
  import opened PerformanceGates
  import opened PerformanceCertificate
  import opened PerformanceProtocol
  import opened PerformanceTeam

  /** The measured trials of the certified engine. */
  function CertifiedRows(rows: seq<Row>, s: Scenario): seq<Row> {
    MeasuredNgkg(RowsFor(rows, s.scenarioId))
  }

  lemma {:induction false} OutcomeOf(plan: Plan, inventory: Inventory, rows: seq<Row>, s: Scenario) returns (o: Outcome)
    requires ClaimsHold(plan, inventory, rows) && s in plan.scenarios
    ensures Summarize(RowsFor(rows, s.scenarioId), s) == Some(o) && o.scenario == s && MeetsThresholds(o)
    ensures CertifiedRows(rows, s) != [] && |CertifiedRows(rows, s)| == s.measuredTrials
    ensures o.ngkg == StatsOf(NGKG, CertifiedRows(rows, s))
  {
    ScenarioSummarized(rows, plan.scenarios, s);
    o := Summarize(RowsFor(rows, s.scenarioId), s).value;
    SummaryParts(RowsFor(rows, s.scenarioId), s);
  }

  lemma {:induction false} SummaryParts(rows: seq<Row>, s: Scenario)
    requires Summarize(rows, s).Some?
    ensures var o := Summarize(rows, s).value;
      o.scenario == s && MeetsThresholds(o) && MeasuredNgkg(rows) != [] && |MeasuredNgkg(rows)| == s.measuredTrials
      && o.ngkg == StatsOf(NGKG, MeasuredNgkg(rows))
  {
  }

  lemma {:induction false} CertifiedTrialRows(rows: seq<Row>, s: Scenario)
    ensures CertifiedRows(rows, s) == NgkgTrials(rows, s)
  {
    TrialsSelected(rows, s.scenarioId, NGKG, MEASURED);
  }

  /** In a certified run the rank-95 share of the measured trials stays within the latency limit, fewer
      than the rank-50 share does less work in its time than the throughput floor asks, and the rank-50
      share costs no more for its work than the limit allows. */
  lemma {:induction false} ThresholdsHoldForTrials(plan: Plan, inventory: Inventory, rows: seq<Row>, s: Scenario)
    requires ClaimsHold(plan, inventory, rows) && Each(Measured, rows) && s in plan.scenarios
    ensures |NgkgTrials(rows, s)| == s.measuredTrials > 0
    ensures WithinLimits(NgkgTrials(rows, s), s)
  {
    var o := OutcomeOf(plan, inventory, rows, s);
    CertifiedTrialRows(rows, s);
    SummarizeExactly(rows, s);
  }

  /** A required speedup is a ratio of medians of worker-measured rows, and holds without rounding. */
  lemma {:induction false} RequiredSpeedupHolds(plan: Plan, inventory: Inventory, rows: seq<Row>, s: Scenario)
    requires ClaimsHold(plan, inventory, rows) && Each(Measured, rows) && s in plan.scenarios
    requires s.minimumSpeedupMilliX > 0
    ensures s.requireExternalJena && EngineStats(RowsFor(rows, s.scenarioId), s, JENA).Some?
    ensures EngineStats(RowsFor(rows, s.scenarioId), s, NGKG).Some?
    ensures s.minimumSpeedupMilliX * EngineStats(RowsFor(rows, s.scenarioId), s, NGKG).value.p50
      <= EngineStats(RowsFor(rows, s.scenarioId), s, JENA).value.p50 * 1000
  {
    var o := OutcomeOf(plan, inventory, rows, s);
    OutcomePair(RowsFor(rows, s.scenarioId), s);
    SummaryMedians(rows, s);
    QuotientBound(s.minimumSpeedupMilliX, o.jena.value.p50 * 1000, o.ngkg.p50);
  }

  // ----- capacity groups

  lemma {:induction false} TwoMembers<T>(s: set<T>, x: T, y: T)
    requires x in s && y in s
    ensures x != y ==> |s| >= 2
  {
    if x != y {
      var rest := s - {x};
      assert y in rest && |rest| == |s| - 1;
      assert rest != {};
    }
  }

  lemma {:induction false} RootListed(rows: seq<Row>, outcomes: seq<Outcome>, name: string, m: nat, k: nat)
    requires m < |outcomes| && outcomes[m].scenario.capacityGroup == name
    requires k < |CertifiedRows(rows, outcomes[m].scenario)|
    ensures ArtifactOf(CertifiedRows(rows, outcomes[m].scenario)[k])
      in Members(Flat(RootsAt(rows), SortPoints(GroupPoints(name, outcomes))))
  {
    var points, sorted := GroupPoints(name, outcomes), SortPoints(GroupPoints(name, outcomes));
    ComposeAt(GroupIs(name), ScenarioIn, outcomes[m]);
    var i := FilterKept(Compose(GroupIs(name), ScenarioIn), outcomes, m);
    SameMembers(sorted, points);
    assert points[i] in sorted;
    var j :| 0 <= j < |sorted| && sorted[j] == outcomes[m];
    assert RootsAt(rows)(sorted[j]) == Map(ArtifactOf, CertifiedRows(rows, outcomes[m].scenario));
    FlatListed(RootsAt(rows), sorted, j, k);
  }

  /** All certified trials of one capacity group that report an artifact root report the same one. */
  lemma {:induction false} GroupSharesOneArtifact(
      plan: Plan, inventory: Inventory, rows: seq<Row>, a: nat, i: nat, b: nat, j: nat)
    requires ClaimsHold(plan, inventory, rows) && a < |plan.scenarios| && b < |plan.scenarios|
    requires plan.scenarios[a].capacityGroup == plan.scenarios[b].capacityGroup
    requires i < |CertifiedRows(rows, plan.scenarios[a])| && j < |CertifiedRows(rows, plan.scenarios[b])|
    requires CertifiedRows(rows, plan.scenarios[a])[i].artifactRootSha256.Some?
    requires CertifiedRows(rows, plan.scenarios[b])[j].artifactRootSha256.Some?
    ensures CertifiedRows(rows, plan.scenarios[a])[i].artifactRootSha256
      == CertifiedRows(rows, plan.scenarios[b])[j].artifactRootSha256
  {
    ClaimsParts(plan, inventory, rows);
    OutcomeAt(rows, plan.scenarios, a);
    OutcomeAt(rows, plan.scenarios, b);
    SharedRoot(rows, Outcomes(rows, plan.scenarios).value, a, i, b, j);
  }

  lemma {:induction false} ClaimsParts(plan: Plan, inventory: Inventory, rows: seq<Row>)
    requires ClaimsHold(plan, inventory, rows)
    ensures Outcomes(rows, plan.scenarios).Some? && GroupsAccepted(rows, Outcomes(rows, plan.scenarios).value)
  {
  }

  lemma {:induction false} SharedRoot(rows: seq<Row>, outcomes: seq<Outcome>, a: nat, i: nat, b: nat, j: nat)
    requires GroupsAccepted(rows, outcomes) && a < |outcomes| && b < |outcomes|
    requires outcomes[a].scenario.capacityGroup == outcomes[b].scenario.capacityGroup
    requires i < |CertifiedRows(rows, outcomes[a].scenario)| && j < |CertifiedRows(rows, outcomes[b].scenario)|
    requires ArtifactOf(CertifiedRows(rows, outcomes[a].scenario)[i]).Some?
    requires ArtifactOf(CertifiedRows(rows, outcomes[b].scenario)[j]).Some?
    ensures ArtifactOf(CertifiedRows(rows, outcomes[a].scenario)[i])
      == ArtifactOf(CertifiedRows(rows, outcomes[b].scenario)[j])
  {
    var name := outcomes[a].scenario.capacityGroup;
    RootListed(rows, outcomes, name, a, i);
    RootListed(rows, outcomes, name, b, j);
    GroupHasOneRoot(rows, outcomes, a, name);
    TwoMembers(Members(Flat(RootsAt(rows), SortPoints(GroupPoints(name, outcomes)))) - {None},
               ArtifactOf(CertifiedRows(rows, outcomes[a].scenario)[i]),
               ArtifactOf(CertifiedRows(rows, outcomes[b].scenario)[j]));
  }

  lemma {:induction false} OutcomeAt(rows: seq<Row>, scenarios: seq<Scenario>, i: nat)
    requires Outcomes(rows, scenarios).Some? && i < |scenarios|
    ensures i < |Outcomes(rows, scenarios).value| && Outcomes(rows, scenarios).value[i].scenario == scenarios[i]
    ensures Summarize(RowsFor(rows, scenarios[i].scenarioId), scenarios[i]) == Some(Outcomes(rows, scenarios).value[i])
  {
    assert Summarizer(rows)(scenarios[i]) == Some(Outcomes(rows, scenarios).value[i]);
    OutcomePair(RowsFor(rows, scenarios[i].scenarioId), scenarios[i]);
  }

  lemma {:induction false} GroupHasOneRoot(rows: seq<Row>, outcomes: seq<Outcome>, m: nat, name: string)
    requires GroupsAccepted(rows, outcomes) && m < |outcomes| && outcomes[m].scenario.capacityGroup == name
    ensures GroupAccepted(rows, GroupPoints(name, outcomes))
    ensures |Members(Flat(RootsAt(rows), SortPoints(GroupPoints(name, outcomes)))) - {None}| <= 1
  {
    assert name in GroupNames(outcomes);
  }

  /** No scenario of the group has a larger scale. */
  predicate Largest(scenarios: seq<Scenario>, s: Scenario) {
    forall m :: 0 <= m < |scenarios| && scenarios[m].capacityGroup == s.capacityGroup ==>
      scenarios[m].scaleOrdinal <= s.scaleOrdinal
  }

  /** In a certified group the median throughput at the largest scale is at least that at scale zero. */
  lemma {:induction false} LargestScaleIsNoSlower(plan: Plan, inventory: Inventory, rows: seq<Row>, a: nat, b: nat)
    requires ClaimsHold(plan, inventory, rows) && a < |plan.scenarios| && b < |plan.scenarios|
    requires plan.scenarios[a].capacityGroup == plan.scenarios[b].capacityGroup
    requires plan.scenarios[a].scaleOrdinal == 0 && Largest(plan.scenarios, plan.scenarios[b])
    ensures Outcomes(rows, plan.scenarios).value[b].ngkg.medianThroughput
      >= Outcomes(rows, plan.scenarios).value[a].ngkg.medianThroughput
  {
    ClaimsParts(plan, inventory, rows);
    OutcomeAt(rows, plan.scenarios, a);
    OutcomeAt(rows, plan.scenarios, b);
    GroupEnds(rows, plan.scenarios, Outcomes(rows, plan.scenarios).value, plan.scenarios[b].capacityGroup, a, b);
  }

  lemma {:induction false} GroupEnds(
      rows: seq<Row>, scenarios: seq<Scenario>, outcomes: seq<Outcome>, name: string, a: nat, b: nat)
    requires Outcomes(rows, scenarios) == Some(outcomes) && GroupsAccepted(rows, outcomes) && a < |outcomes|
    requires b < |outcomes|
    requires outcomes[a].scenario.capacityGroup == name == outcomes[b].scenario.capacityGroup
    requires outcomes[a].scenario.scaleOrdinal == 0 && Largest(scenarios, outcomes[b].scenario)
    ensures outcomes[b].ngkg.medianThroughput >= outcomes[a].ngkg.medianThroughput
  {
    GroupHasOneRoot(rows, outcomes, b, name);
    LastScale(scenarios, outcomes, rows, name, b);
    EndsOfGroup(rows, outcomes, name, a, b);
  }

  lemma {:induction false} EndsOfGroup(rows: seq<Row>, outcomes: seq<Outcome>, name: string, a: nat, b: nat)
    requires GroupAccepted(rows, GroupPoints(name, outcomes)) && a < |outcomes| && b < |outcomes|
    requires outcomes[a].scenario.capacityGroup == name == outcomes[b].scenario.capacityGroup
    requires outcomes[a].scenario.scaleOrdinal == 0
    requires outcomes[b].scenario.scaleOrdinal == |SortPoints(GroupPoints(name, outcomes))| - 1
    ensures outcomes[b].ngkg.medianThroughput >= outcomes[a].ngkg.medianThroughput
  {
    var i := PointAt(outcomes, name, a);
    var j := PointAt(outcomes, name, b);
  }

  /** In a dense group a point's place in scale order is its ordinal. */
  lemma {:induction false} PointAt(outcomes: seq<Outcome>, name: string, m: nat) returns (i: nat)
    requires m < |outcomes| && outcomes[m].scenario.capacityGroup == name && DenseScale(GroupPoints(name, outcomes))
    ensures i < |SortPoints(GroupPoints(name, outcomes))| && SortPoints(GroupPoints(name, outcomes))[i] == outcomes[m]
    ensures i == outcomes[m].scenario.scaleOrdinal
  {
    var points, sorted := GroupPoints(name, outcomes), SortPoints(GroupPoints(name, outcomes));
    ComposeAt(GroupIs(name), ScenarioIn, outcomes[m]);
    var k := FilterKept(Compose(GroupIs(name), ScenarioIn), outcomes, m);
    SameMembers(sorted, points);
    assert points[k] in sorted;
    i :| 0 <= i < |sorted| && sorted[i] == outcomes[m];
    assert Map(ScaleOf, sorted)[i] == i;
  }

  /** The last point in scale order. */
  lemma {:induction false} LastPoint(outcomes: seq<Outcome>, name: string) returns (m: nat)
    requires GroupPoints(name, outcomes) != [] && DenseScale(GroupPoints(name, outcomes))
    ensures m < |outcomes| && outcomes[m].scenario.capacityGroup == name
    ensures outcomes[m].scenario.scaleOrdinal == |SortPoints(GroupPoints(name, outcomes))| - 1
  {
    var points, sorted := GroupPoints(name, outcomes), SortPoints(GroupPoints(name, outcomes));
    var last := |sorted| - 1;
    SameMembers(sorted, points);
    assert sorted[last] in points;
    var k :| 0 <= k < |points| && points[k] == sorted[last];
    m := FilterFound(Compose(GroupIs(name), ScenarioIn), outcomes, k);
    ComposeAt(GroupIs(name), ScenarioIn, outcomes[m]);
    assert Map(ScaleOf, sorted)[last] == last;
  }

  lemma {:induction false} LastScale(
      scenarios: seq<Scenario>, outcomes: seq<Outcome>, rows: seq<Row>, name: string, b: nat)
    requires Outcomes(rows, scenarios) == Some(outcomes) && DenseScale(GroupPoints(name, outcomes))
    requires b < |outcomes| && outcomes[b].scenario.capacityGroup == name && Largest(scenarios, outcomes[b].scenario)
    ensures outcomes[b].scenario.scaleOrdinal == |SortPoints(GroupPoints(name, outcomes))| - 1
  {
    var j := PointAt(outcomes, name, b);
    var m := LastPoint(outcomes, name);
    OutcomeAt(rows, scenarios, m);
    assert scenarios[m].scaleOrdinal <= outcomes[b].scenario.scaleOrdinal;
  }

  // ----- all claims, from the workers to the certificate

  /** After any history, a certificate means that every claim is met by the trials the workers measured. */
  lemma {:induction false} CertifiedClaims(d: Digests, plan: Plan, inventory: Inventory, events: seq<Event<Job>>)
    requires Issued(d, plan, inventory, events) && PlanDigestUnique(d, plan, events)
    ensures Each(Measured, RowsIn(Merged(d, events))) && ClaimsMet(plan, inventory, RowsIn(Merged(d, events)))
  {
    AllRowsMeasured(d, plan, inventory, events);
    ClaimsExactly(plan, inventory, RowsIn(Merged(d, events)));
  }

  lemma {:induction false} TeamMeasured(d: Digests, plan: Plan, jobs: seq<Job>, reports: seq<Report>)
    requires ProducedBy(d, plan, jobs, reports)
    ensures Each(Measured, RowsIn(reports))
  {
    var rows := RowsIn(reports);
    forall k | 0 <= k < |rows| ensures Measured(rows[k]) {
      var m, n := FlatOrigin(ObservationsOf, SortReports(reports), k);
      SortedReportListed(reports, m);
      var j :| 0 <= j < |reports| && reports[j] == SortReports(reports)[m];
      var q := RowRequest(d, jobs[j], n);
    }
  }

  /** A full team of successful workers is certified exactly when the inventory is the planned one and
      the trials they measured meet every claim. */
  lemma {:induction false} TeamCertifiedIff(
      d: Digests, plan: Plan, inventory: Inventory, jobs: seq<Job>, reports: seq<Report>)
    requires ProducedBy(d, plan, jobs, reports) && IdsDistinct(plan) && FullTeam(reports, plan.partitionCount)
    ensures MergeAccepted(d, plan, inventory, reports) <==>
      d.inventory(inventory) == plan.benchmarkInventorySha256 && ClaimsMet(plan, inventory, RowsIn(reports))
  {
    TeamMeasured(d, plan, jobs, reports);
    WorkerReportsAcceptedIffFullTeam(d, plan, jobs, reports);
    ClaimsExactly(plan, inventory, RowsIn(reports));
  }
}
