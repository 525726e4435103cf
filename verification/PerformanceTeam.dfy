/** Phase 40.13.23: the report barrier and the density test never refuse a full team of
    successful workers, whichever engine the hash put first. */
module PerformanceTeam {
  import opened Sorting
  import opened Sequences
  import opened Loops
  import opened Partitions
  import opened PerformanceRun
  import opened PerformanceMerge
  import opened PerformanceDensity
  import opened PerformanceProtocol

  /** One report per successful worker invocation, all on the same plan. */
  ghost predicate ProducedBy(d: Digests, plan: Plan, jobs: seq<Job>, reports: seq<Report>) {
    && |reports| == |jobs|
    && forall i :: 0 <= i < |jobs| ==>
      JobAccepted(d, jobs[i]) && jobs[i].plan == plan && reports[i] == ReportOf(d, jobs[i])
  }

  function PartitionOf(r: Report): int { r.partition }

  predicate Named(r: Report) { r.workerId != "" }

  /** One worker for every partition, under non-empty and different names. */
  predicate FullTeam(reports: seq<Report>, count: int) {
    && |reports| == count && Distinct(Map(PartitionOf, reports))
    && Distinct(Map(WorkerOf, reports)) && Each(Named, reports)
  }

  // ----- each report is acceptable

  lemma {:induction false} WorkerRowsAccepted(d: Digests, job: Job)
    requires JobAccepted(d, job) && IdsDistinct(job.plan)
    ensures Each(RowTest(job.plan, Expected(job.plan.scenarios), job.partition), ReportOf(d, job).observations)
  {
    var rows, test := ReportOf(d, job).observations, RowTest(job.plan, Expected(job.plan.scenarios), job.partition);
    forall n | 0 <= n < |rows| ensures test(rows[n]) {
      var q := RowRequest(d, job, n);
      UniqueIds(job.plan, q.scenario, Expected(job.plan.scenarios)[q.scenario.scenarioId]);
    }
  }

  lemma {:induction false} ProducedReport(d: Digests, plan: Plan, jobs: seq<Job>, reports: seq<Report>, r: Report)
    returns (j: nat)
    requires ProducedBy(d, plan, jobs, reports) && IdsDistinct(plan) && r in reports && Named(r)
    ensures j < |jobs| && JobAccepted(d, jobs[j]) && jobs[j].plan == plan && r == ReportOf(d, jobs[j])
    ensures 0 <= r.partition < plan.partitionCount
    ensures Acceptor(plan, d.plan(plan), Expected(plan.scenarios))(r.partition, r)
  {
    j :| 0 <= j < |reports| && reports[j] == r;
    WorkerRowsAccepted(d, jobs[j]);
  }

  lemma {:induction false} TeamPartitions(d: Digests, plan: Plan, jobs: seq<Job>, reports: seq<Report>)
    requires ProducedBy(d, plan, jobs, reports) && IdsDistinct(plan) && FullTeam(reports, plan.partitionCount)
    ensures forall i :: 0 <= i < |SortReports(reports)| ==>
      SortReports(reports)[i] in reports && Named(SortReports(reports)[i]) && SortReports(reports)[i].partition == i
  {
    var sorted := SortReports(reports);
    EachPermutation(Named, reports, sorted);
    MapPermutation(PartitionOf, reports, sorted);
    DistinctPermutation(Map(PartitionOf, reports), Map(PartitionOf, sorted));
    forall k | 0 <= k < |sorted|
      ensures sorted[k] in reports && Named(sorted[k]) && 0 <= sorted[k].partition < |sorted|
    {
      SortedReportListed(reports, k);
      var x := ProducedReport(d, plan, jobs, reports, sorted[k]);
    }
    assert forall i, j :: 0 <= i < j < |sorted| ==> ReportLe(sorted[i], sorted[j]);
    PartitionsAreIndices(PartitionOf, sorted);
  }

  /** A full team's report for partition `i` comes `i`-th, and from a successful worker. */
  lemma {:induction false} TeamReport(d: Digests, plan: Plan, jobs: seq<Job>, reports: seq<Report>, i: nat)
    returns (j: nat)
    requires ProducedBy(d, plan, jobs, reports) && IdsDistinct(plan) && FullTeam(reports, plan.partitionCount)
    requires i < |SortReports(reports)|
    ensures j < |jobs| && JobAccepted(d, jobs[j]) && jobs[j].plan == plan && jobs[j].partition == i
    ensures SortReports(reports)[i] == ReportOf(d, jobs[j])
    ensures Acceptor(plan, d.plan(plan), Expected(plan.scenarios))(i, SortReports(reports)[i])
  {
    TeamPartitions(d, plan, jobs, reports);
    j := ProducedReport(d, plan, jobs, reports, SortReports(reports)[i]);
  }

  /** The merger's barrier accepts successful reports exactly when they are a full team. */
  lemma {:induction false} WorkerReportsAcceptedIffFullTeam(
      d: Digests, plan: Plan, jobs: seq<Job>, reports: seq<Report>)
    requires ProducedBy(d, plan, jobs, reports) && IdsDistinct(plan)
    ensures ReportsAccepted(d, plan, reports) <==> FullTeam(reports, plan.partitionCount)
  {
    if FullTeam(reports, plan.partitionCount) {
      FullTeamAccepted(d, plan, jobs, reports);
    }
    if ReportsAccepted(d, plan, reports) {
      AcceptedIsFullTeam(d, plan, reports);
    }
  }

  lemma {:induction false} FullTeamAccepted(d: Digests, plan: Plan, jobs: seq<Job>, reports: seq<Report>)
    requires ProducedBy(d, plan, jobs, reports) && IdsDistinct(plan) && FullTeam(reports, plan.partitionCount)
    ensures ReportsAccepted(d, plan, reports)
  {
    var sorted, accept := SortReports(reports), Acceptor(plan, d.plan(plan), Expected(plan.scenarios));
    forall i | 0 <= i < |sorted| ensures accept(i, sorted[i]) {
      var j := TeamReport(d, plan, jobs, reports, i);
    }
    MapPermutation(WorkerOf, reports, sorted);
    DistinctPermutation(Map(WorkerOf, reports), Map(WorkerOf, sorted));
  }

  lemma {:induction false} AcceptedIsFullTeam(d: Digests, plan: Plan, reports: seq<Report>)
    requires ReportsAccepted(d, plan, reports)
    ensures FullTeam(reports, plan.partitionCount)
  {
    var sorted := SortReports(reports);
    var s := Map(PartitionOf, sorted);
    forall i | 0 <= i < |sorted| ensures s[i] == i && Named(sorted[i]) {
      AcceptedReport(d, plan, reports, i);
      assert s[i] == PartitionOf(sorted[i]);
    }
    assert Distinct(s);
    MapPermutation(PartitionOf, sorted, reports);
    DistinctPermutation(s, Map(PartitionOf, reports));
    MapPermutation(WorkerOf, sorted, reports);
    DistinctPermutation(Map(WorkerOf, sorted), Map(WorkerOf, reports));
    EachPermutation(Named, sorted, reports);
  }

  // ----- and every selection is dense

  /** All merged rows of a scenario come from the report of its partition. */
  lemma {:induction false} OwnReportOnly(d: Digests, plan: Plan, reports: seq<Report>, s: Scenario)
    requires ReportsAccepted(d, plan, reports) && IdsDistinct(plan) && s in plan.scenarios
    requires 0 <= s.partition < plan.partitionCount
    ensures RowsFor(RowsIn(reports), s.scenarioId)
      == RowsFor(SortReports(reports)[s.partition].observations, s.scenarioId)
  {
    var sorted, p := SortReports(reports), Compose(IdIs(s.scenarioId), RowKey);
    forall i | 0 <= i < |sorted| && i != s.partition ensures Filter(p, ObservationsOf(sorted[i])) == [] {
      AcceptedReport(d, plan, reports, i);
      NoForeignRows(plan, s, i, sorted[i].observations);
    }
    FilterFlatOnly(p, ObservationsOf, sorted, s.partition);
  }

  lemma {:induction false} NoForeignRows(plan: Plan, s: Scenario, i: int, rows: seq<Row>)
    requires IdsDistinct(plan) && s in plan.scenarios && i != s.partition
    requires Each(RowTest(plan, Expected(plan.scenarios), i), rows)
    ensures Filter(Compose(IdIs(s.scenarioId), RowKey), rows) == []
  {
    var p := Compose(IdIs(s.scenarioId), RowKey);
    UniqueIds(plan, s, Expected(plan.scenarios)[s.scenarioId]);
    forall n | 0 <= n < |rows| ensures !p(rows[n]) {
      assert RowTest(plan, Expected(plan.scenarios), i)(rows[n]);
      ComposeAt(IdIs(s.scenarioId), RowKey, rows[n]);
    }
    FilterNone(p, rows);
  }

  /** For every planned scenario, required engine and phase, a full team's rows pass the density
      test exactly when the planned trial count is not negative, whatever the engine order was. */
  lemma {:induction false} TeamIsDense(
      d: Digests, plan: Plan, jobs: seq<Job>, reports: seq<Report>, s: Scenario, engine: string, phase: string)
    requires ProducedBy(d, plan, jobs, reports) && IdsDistinct(plan) && FullTeam(reports, plan.partitionCount)
    requires s in plan.scenarios && 0 <= s.partition < plan.partitionCount && engine in Engines(s) && IsPhase(phase)
    ensures Dense(Selected(RowsFor(RowsIn(reports), s.scenarioId), engine, phase), PlannedTrials(s, phase))
      <==> PlannedTrials(s, phase) >= 0
  {
    FullTeamAccepted(d, plan, jobs, reports);
    OwnReportOnly(d, plan, reports, s);
    var j := TeamReport(d, plan, jobs, reports, s.partition);
    ReportTrials(d, jobs[j], s, engine, phase);
    PermutedIndicesDense(Selected(RowsFor(RowsIn(reports), s.scenarioId), engine, phase), PlannedTrials(s, phase));
  }
}
