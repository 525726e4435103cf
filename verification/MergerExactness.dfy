/** Exactly which report directories the three mergers accept, whoever wrote the reports. */
module MergerExactness {
  import opened Orders
  import opened Sorting
  import opened Sequences
  import opened Loops
  import opened Partitions
  import SP = StandardsPlan
  import S = StandardsRun
  import P = PerformanceRun
  import PM = PerformanceMerge
  import RP = ReleasePlan
  import R = ReleaseRun

  /** The texts are pairwise different. */
  ghost predicate AllDifferent<T>(nameOf: T -> string, xs: seq<T>) {
    forall i, j :: 0 <= i < j < |xs| ==> nameOf(xs[i]) != nameOf(xs[j])
  }

  lemma {:induction false} DifferentExactly<T>(nameOf: T -> string, xs: seq<T>)
    ensures Distinct(Map(nameOf, xs)) <==> AllDifferent(nameOf, xs)
  {
    var names := Map(nameOf, xs);
    assert forall i :: 0 <= i < |xs| ==> names[i] == nameOf(xs[i]);
  }

  /** Different names stay different in any order. */
  lemma {:induction false} DifferentInAnyOrder<T>(nameOf: T -> string, xs: seq<T>, sorted: seq<T>)
    requires multiset(xs) == multiset(sorted)
    ensures Distinct(Map(nameOf, sorted)) <==> AllDifferent(nameOf, xs)
  {
    DifferentExactly(nameOf, xs);
    MapPermutation(nameOf, xs, sorted);
    if Distinct(Map(nameOf, sorted)) { DistinctPermutation(Map(nameOf, sorted), Map(nameOf, xs)); }
    if Distinct(Map(nameOf, xs)) { DistinctPermutation(Map(nameOf, xs), Map(nameOf, sorted)); }
  }

  // ----- phase 40.13.22

  function CaseId(c: SP.Case): string { c.caseId }
  function StandardsPartition(r: S.Report): int { r.partition }

  lemma {:induction false} CasesExactly(cs: seq<SP.Case>, c: SP.Case)
    ensures c.caseId in S.Expected(cs) && S.Expected(cs)[c.caseId] == c <==> Planned(CaseId, cs, c)
    decreases |cs|
  {
    if cs != [] {
      var init, last := cs[..|cs|-1], cs[|cs|-1];
      CasesExactly(init, c);
      PlannedSnoc(CaseId, init, last, c);
      assert init + [last] == cs;
    }
  }

  /** The row says that both engines reached the planned outcome and agree, as far as the merger looks. */
  predicate RowStands(c: SP.Case, row: S.Row) {
    && row.caseId == c.caseId && row.family == c.family && row.partition == c.partition && row.complete
    && (|| (c.expectedOutcome == "success" && row.ngkgOutcome == "success" && row.oracleOutcome == "success"
            && row.oracleResultSha256 == row.ngkgResultSha256)
        || (c.expectedOutcome != "success" && row.ngkgOutcome == "failure" && row.oracleOutcome == "failure"
            && row.ngkgErrorClass == c.expectedErrorClass == row.oracleErrorClass))
  }

  ghost predicate StandsForSome(cs: seq<SP.Case>, p: int, row: S.Row) {
    exists c :: Planned(CaseId, cs, c) && c.partition == p && RowStands(c, row)
  }

  ghost predicate CaseListed(c: SP.Case, rows: seq<S.Row>) {
    exists i :: 0 <= i < |rows| && rows[i].caseId == c.caseId
  }

  /** The rows stand for the planned cases of the partition, one for each, in the order of their identifiers. */
  ghost predicate RowsStand(cs: seq<SP.Case>, p: int, rows: seq<S.Row>) {
    && (forall i, j :: 0 <= i < j < |rows| ==> Lt(rows[i].caseId, rows[j].caseId))
    && (forall i :: 0 <= i < |rows| ==> StandsForSome(cs, p, rows[i]))
    && forall c :: Planned(CaseId, cs, c) && c.partition == p ==> CaseListed(c, rows)
  }

  lemma {:induction false} RowExactly(cs: seq<SP.Case>, p: int, row: S.Row)
    ensures var expected := S.Expected(cs);
      row.caseId in S.AssignedIds(expected, p) && S.RowAccepted(expected[row.caseId], p, row)
      <==> StandsForSome(cs, p, row)
  {
    var expected := S.Expected(cs);
    if row.caseId in expected {
      CasesExactly(cs, expected[row.caseId]);
    }
    if c :| Planned(CaseId, cs, c) && c.partition == p && RowStands(c, row) {
      CasesExactly(cs, c);
    }
  }

  lemma {:induction false} IdsExactly(cs: seq<SP.Case>, p: int, rows: seq<S.Row>)
    ensures Map(S.RowId, rows) == SortedSet(S.AssignedIds(S.Expected(cs), p)) <==>
      && (forall i, j :: 0 <= i < j < |rows| ==> Lt(rows[i].caseId, rows[j].caseId))
      && (forall i :: 0 <= i < |rows| ==> rows[i].caseId in S.AssignedIds(S.Expected(cs), p))
      && forall c :: Planned(CaseId, cs, c) && c.partition == p ==> CaseListed(c, rows)
  {
    var ids, names := Map(S.RowId, rows), S.AssignedIds(S.Expected(cs), p);
    assert forall i :: 0 <= i < |rows| ==> ids[i] == rows[i].caseId;
    IncreasingList(ids, names);
    AllListed(cs, p, rows);
  }

  /** A list is the sorted set exactly when it increases strictly and has the same members. */
  lemma {:induction false} IncreasingList(ids: seq<string>, names: set<string>)
    ensures ids == SortedSet(names) <==>
      && StrictlyIncreasing(ids) && (forall i :: 0 <= i < |ids| ==> ids[i] in names)
      && forall id :: id in names ==> id in ids
  {
    SortedSetIncreasing(names);
    if ids == SortedSet(names) {
      assert forall i :: 0 <= i < |ids| ==> ids[i] in ids;
    }
    if StrictlyIncreasing(ids) && (forall i :: 0 <= i < |ids| ==> ids[i] in names)
      && forall id :: id in names ==> id in ids
    {
      SameSize(ids, names);
      StrictlyIncreasingUnique(ids, SortedSet(names));
    }
  }

  lemma {:induction false} SameSize(ids: seq<string>, names: set<string>)
    requires StrictlyIncreasing(ids) && (forall i :: 0 <= i < |ids| ==> ids[i] in names)
    requires forall id :: id in names ==> id in ids
    ensures |ids| == |names|
  {
    forall i, j | 0 <= i < j < |ids| ensures ids[i] != ids[j] { assert Lt(ids[i], ids[j]); }
    DistinctBySize(ids);
    assert names == set x | x in ids;
  }

  lemma {:induction false} AllListed(cs: seq<SP.Case>, p: int, rows: seq<S.Row>)
    ensures (forall id :: id in S.AssignedIds(S.Expected(cs), p) ==> id in Map(S.RowId, rows)) <==>
      forall c :: Planned(CaseId, cs, c) && c.partition == p ==> CaseListed(c, rows)
  {
    var ids, expected := Map(S.RowId, rows), S.Expected(cs);
    assert forall i :: 0 <= i < |rows| ==> ids[i] == rows[i].caseId;
    if forall id :: id in S.AssignedIds(expected, p) ==> id in ids {
      forall c | Planned(CaseId, cs, c) && c.partition == p ensures CaseListed(c, rows) {
        CasesExactly(cs, c);
        assert c.caseId in S.AssignedIds(expected, p);
        var i :| 0 <= i < |ids| && ids[i] == c.caseId;
        assert rows[i].caseId == c.caseId;
      }
    }
    if forall c :: Planned(CaseId, cs, c) && c.partition == p ==> CaseListed(c, rows) {
      forall id | id in S.AssignedIds(expected, p) ensures id in ids {
        CasesExactly(cs, expected[id]);
        assert CaseListed(expected[id], rows);
        var i :| 0 <= i < |rows| && rows[i].caseId == id;
        assert ids[i] == id;
      }
    }
  }

  lemma {:induction false} EachRowExactly(cs: seq<SP.Case>, p: int, rows: seq<S.Row>)
    ensures (forall i :: 0 <= i < |rows| ==> StandsForSome(cs, p, rows[i])) <==>
      && (forall i :: 0 <= i < |rows| ==> rows[i].caseId in S.AssignedIds(S.Expected(cs), p))
      && S.RowsAccepted(S.Expected(cs), p, rows)
  {
    var expected := S.Expected(cs);
    forall i | 0 <= i < |rows|
      ensures StandsForSome(cs, p, rows[i]) <==>
        rows[i].caseId in S.AssignedIds(expected, p) && S.RowAccepted(expected[rows[i].caseId], p, rows[i])
    {
      RowExactly(cs, p, rows[i]);
    }
  }

  lemma {:induction false} RowsExactly(cs: seq<SP.Case>, p: int, rows: seq<S.Row>)
    ensures var expected := S.Expected(cs);
      Map(S.RowId, rows) == SortedSet(S.AssignedIds(expected, p)) && S.RowsAccepted(expected, p, rows)
      <==> RowsStand(cs, p, rows)
  {
    IdsExactly(cs, p, rows);
    EachRowExactly(cs, p, rows);
  }

  /** A complete report of partition `p` on this plan, by a named worker, whose rows stand. */
  ghost predicate StandardsReport(d: SP.Digests, plan: SP.Plan, p: int, r: S.Report) {
    && r.formatVersion == 1 && r.planSha256 == d.plan(plan) && r.partition == p && r.complete && r.workerId != ""
    && RowsStand(plan.cases, p, r.observations)
  }

  ghost predicate HasStandardsReport(d: SP.Digests, plan: SP.Plan, p: int, reports: seq<S.Report>) {
    exists r :: r in reports && StandardsReport(d, plan, p, r)
  }

  lemma {:induction false} StandardsReportExactly(d: SP.Digests, plan: SP.Plan, p: int, r: S.Report)
    ensures S.Acceptor(d.plan(plan), S.Expected(plan.cases))(p, r) <==> StandardsReport(d, plan, p, r)
  {
    RowsExactly(plan.cases, p, r.observations);
  }

  lemma {:induction false} StandardsReportsExactly(d: SP.Digests, plan: SP.Plan, reports: seq<S.Report>)
    ensures S.ReportsAccepted(d.plan(plan), S.Expected(plan.cases), S.SortReports(reports)) <==>
      forall p :: 0 <= p < |reports| ==> HasStandardsReport(d, plan, p, reports)
  {
    var accept, sorted := S.Acceptor(d.plan(plan), S.Expected(plan.cases)), S.SortReports(reports);
    forall p, r ensures accept(p, r) <==> StandardsReport(d, plan, p, r) { StandardsReportExactly(d, plan, p, r); }
    forall p ensures HasReport(accept, p, reports) <==> HasStandardsReport(d, plan, p, reports) {
    }
    ByPartition(sorted);
    EachPartitionAccepted(accept, StandardsPartition, reports, sorted);
  }

  lemma {:induction false} ByPartition(sorted: seq<S.Report>)
    requires SortedBy(sorted, S.ReportLe)
    ensures forall i, j :: 0 <= i < j < |sorted| ==> StandardsPartition(sorted[i]) <= StandardsPartition(sorted[j])
  {
    forall i, j | 0 <= i < j < |sorted| ensures StandardsPartition(sorted[i]) <= StandardsPartition(sorted[j]) {
      assert S.ReportLe(sorted[i], sorted[j]);
    }
  }

  /** The merger accepts exactly one good report for each partition, by different workers, of a plan all whose cases
      have a partition. */
  lemma {:induction false} StandardsMergeExactly(d: SP.Digests, plan: SP.Plan, reports: seq<S.Report>)
    ensures S.MergeAccepted(d, plan, reports) <==>
      && |reports| == plan.partitionCount
      && (forall p :: 0 <= p < |reports| ==> HasStandardsReport(d, plan, p, reports))
      && AllDifferent(S.WorkerOf, reports)
      && forall c :: Planned(CaseId, plan.cases, c) ==> 0 <= c.partition < |reports|
  {
    StandardsReportsExactly(d, plan, reports);
    DifferentInAnyOrder(S.WorkerOf, reports, S.SortReports(reports));
    CasesHavePartitions(plan.cases, |reports|);
  }

  lemma {:induction false} CasesHavePartitions(cs: seq<SP.Case>, n: int)
    ensures (forall id :: id in S.Expected(cs) ==> 0 <= S.Expected(cs)[id].partition < n) <==>
      forall c :: Planned(CaseId, cs, c) ==> 0 <= c.partition < n
  {
    var expected := S.Expected(cs);
    forall id | id in expected ensures Planned(CaseId, cs, expected[id]) { CasesExactly(cs, expected[id]); }
    forall c | Planned(CaseId, cs, c) ensures c.caseId in expected && expected[c.caseId] == c { CasesExactly(cs, c); }
  }

  // ----- phase 40.13.23

  function TrialScenario(s: P.Scenario): string { s.scenarioId }
  function PerformancePartition(r: P.Report): int { r.partition }

  lemma {:induction false} ScenariosExactly(xs: seq<P.Scenario>, s: P.Scenario)
    ensures s.scenarioId in PM.Expected(xs) && PM.Expected(xs)[s.scenarioId] == s <==> Planned(TrialScenario, xs, s)
    decreases |xs|
  {
    if xs != [] {
      var init, last := xs[..|xs|-1], xs[|xs|-1];
      ScenariosExactly(init, s);
      PlannedSnoc(TrialScenario, init, last, s);
      assert init + [last] == xs;
    }
  }

  /** The trial reached the planned result under the planned scaling evidence, within the requested resources. */
  predicate TrialStands(plan: P.Plan, s: P.Scenario, row: P.Row) {
    && row.scenarioId == s.scenarioId && row.complete && s.expectedResultSha256 == row.resultSha256
    && plan.autoscalingEvidenceSha256 == row.autoscalingEvidenceSha256
    && s.requestedNodes >= row.nodesActivated && s.requestedCpuMillis >= row.cpuMillisActivated
    && s.requestedMemoryBytes >= row.ramBytesActivated
  }

  ghost predicate TrialPlanned(plan: P.Plan, p: int, row: P.Row) {
    exists s :: Planned(TrialScenario, plan.scenarios, s) && s.partition == p && TrialStands(plan, s, row)
  }

  lemma {:induction false} TrialExactly(plan: P.Plan, p: int, row: P.Row)
    ensures PM.RowTest(plan, PM.Expected(plan.scenarios), p)(row) <==> TrialPlanned(plan, p, row)
  {
    var expected := PM.Expected(plan.scenarios);
    if row.scenarioId in expected {
      ScenariosExactly(plan.scenarios, expected[row.scenarioId]);
    }
    if s :| Planned(TrialScenario, plan.scenarios, s) && s.partition == p && TrialStands(plan, s, row) {
      ScenariosExactly(plan.scenarios, s);
    }
  }

  /** A complete report of partition `p` on this plan, by a named worker, whose trials stand. */
  ghost predicate PerformanceReport(d: P.Digests, plan: P.Plan, p: int, r: P.Report) {
    && r.formatVersion == 1 && r.planSha256 == d.plan(plan) && r.partition == p && r.complete && r.workerId != ""
    && forall i :: 0 <= i < |r.observations| ==> TrialPlanned(plan, p, r.observations[i])
  }

  ghost predicate HasPerformanceReport(d: P.Digests, plan: P.Plan, p: int, reports: seq<P.Report>) {
    exists r :: r in reports && PerformanceReport(d, plan, p, r)
  }

  lemma {:induction false} PerformanceReportExactly(d: P.Digests, plan: P.Plan, p: int, r: P.Report)
    ensures PM.Acceptor(plan, d.plan(plan), PM.Expected(plan.scenarios))(p, r) <==> PerformanceReport(d, plan, p, r)
  {
    forall i | 0 <= i < |r.observations|
      ensures PM.RowTest(plan, PM.Expected(plan.scenarios), p)(r.observations[i])
        <==> TrialPlanned(plan, p, r.observations[i])
    {
      TrialExactly(plan, p, r.observations[i]);
    }
  }

  lemma {:induction false} TrialsByPartition(sorted: seq<P.Report>)
    requires SortedBy(sorted, PM.ReportLe)
    ensures forall i, j :: 0 <= i < j < |sorted| ==> PerformancePartition(sorted[i]) <= PerformancePartition(sorted[j])
  {
    forall i, j | 0 <= i < j < |sorted| ensures PerformancePartition(sorted[i]) <= PerformancePartition(sorted[j]) {
      assert PM.ReportLe(sorted[i], sorted[j]);
    }
  }

  /** The report barrier accepts exactly one good report for each partition, by different workers. */
  lemma {:induction false} PerformanceBarrierExactly(d: P.Digests, plan: P.Plan, reports: seq<P.Report>)
    ensures PM.ReportsAccepted(d, plan, reports) <==>
      && |reports| == plan.partitionCount
      && (forall p :: 0 <= p < |reports| ==> HasPerformanceReport(d, plan, p, reports))
      && AllDifferent(PM.WorkerOf, reports)
  {
    var accept, sorted := PM.Acceptor(plan, d.plan(plan), PM.Expected(plan.scenarios)), PM.SortReports(reports);
    forall p, r ensures accept(p, r) <==> PerformanceReport(d, plan, p, r) { PerformanceReportExactly(d, plan, p, r); }
    forall p ensures HasReport(accept, p, reports) <==> HasPerformanceReport(d, plan, p, reports) {
    }
    TrialsByPartition(sorted);
    EachPartitionAccepted(accept, PerformancePartition, reports, sorted);
    DifferentInAnyOrder(PM.WorkerOf, reports, sorted);
  }

  // ----- phase 40.13.24

  lemma {:induction false} GatesExactly(xs: seq<RP.Scenario>, s: RP.Scenario)
    ensures s.scenarioId in R.Expected(xs) && R.Expected(xs)[s.scenarioId] == s <==> Planned(RP.ScenarioId, xs, s)
    decreases |xs|
  {
    if xs != [] {
      var init, last := xs[..|xs|-1], xs[|xs|-1];
      GatesExactly(init, s);
      PlannedSnoc(RP.ScenarioId, init, last, s);
      assert init + [last] == xs;
    }
  }

  /** The observation is of the planned gate of the planned provider, has the planned output before and after
      recovery, and recovered what was injected. */
  predicate GateStands(s: RP.Scenario, partition: int, o: R.Observation) {
    && o.scenarioId == s.scenarioId && s.partition == partition && s.provider == o.provider && s.gate == o.gate
    && o.complete && o.outputSha256 == s.expectedOutputSha256 == o.postRecoveryResultSha256
    && o.recoveredFailures == o.injectedFailures
  }

  ghost predicate GatePlanned(plan: RP.Plan, row: R.Row) {
    exists s :: Planned(RP.ScenarioId, plan.scenarios, s) && GateStands(s, row.partition, row.item)
  }

  lemma {:induction false} GateExactly(plan: RP.Plan, row: R.Row)
    ensures R.RowTest(R.Expected(plan.scenarios))(row) <==> GatePlanned(plan, row)
  {
    var expected := R.Expected(plan.scenarios);
    if row.item.scenarioId in expected {
      GatesExactly(plan.scenarios, expected[row.item.scenarioId]);
    }
    if s :| Planned(RP.ScenarioId, plan.scenarios, s) && GateStands(s, row.partition, row.item) {
      GatesExactly(plan.scenarios, s);
    }
  }

  /** The rows are the observations of the reports, each with the partition of its report. */
  lemma {:induction false} RowsHold(reports: seq<R.Report>, row: R.Row)
    ensures row in R.Rows(reports) <==>
      exists r :: r in reports && r.partition == row.partition && row.item in r.observations
  {
    var rows := R.Rows(reports);
    if row in rows {
      var k :| 0 <= k < |rows| && rows[k] == row;
      var m, n := FlatOrigin(R.RowsOf, reports, k);
      assert reports[m] in reports && reports[m].observations[n] in reports[m].observations;
    }
    if r :| r in reports && r.partition == row.partition && row.item in r.observations {
      var m :| 0 <= m < |reports| && reports[m] == r;
      var n :| 0 <= n < |r.observations| && r.observations[n] == row.item;
      assert R.RowsOf(r)[n] == row;
      FlatListed(R.RowsOf, reports, m, n);
    }
  }

  ghost predicate Reported(reports: seq<R.Report>, id: string) {
    exists row :: row in R.Rows(reports) && row.item.scenarioId == id
  }

  ghost predicate HasPartition(reports: seq<R.Report>, p: int) {
    exists r :: r in reports && r.partition == p
  }

  /** The barrier accepts exactly one complete report on this plan for each partition, by different workers, whose
      observations stand, one for each planned scenario. */
  lemma {:induction false} ReleaseBarrierExactly(d: RP.Digests, plan: RP.Plan, reports: seq<R.Report>)
    ensures R.BarrierPassed(d, plan, reports) <==>
      && |reports| == plan.partitionCount && (forall p :: 0 <= p < |reports| ==> HasPartition(reports, p))
      && (forall r :: r in reports ==> r.formatVersion == 1 && r.planSha256 == d.plan(plan) && r.complete)
      && AllDifferent(R.WorkerOf, reports)
      && (forall row :: row in R.Rows(reports) ==> GatePlanned(plan, row))
      && AllDifferent(R.RowId, R.Rows(reports))
      && forall s :: Planned(RP.ScenarioId, plan.scenarios, s) ==> Reported(reports, s.scenarioId)
  {
    HeadersExactly(d, plan, reports);
    GateRowsExactly(plan, reports);
    if |reports| == plan.partitionCount { PartitionsExactly(reports); }
    if forall row :: row in R.Rows(reports) ==> GatePlanned(plan, row) { ScenariosReported(plan, reports); }
  }

  lemma {:induction false} HeadersExactly(d: RP.Digests, plan: RP.Plan, reports: seq<R.Report>)
    ensures Each(R.ReportTest(d.plan(plan)), reports) <==>
      forall r :: r in reports ==> r.formatVersion == 1 && r.planSha256 == d.plan(plan) && r.complete
    ensures Distinct(Map(R.WorkerOf, reports)) <==> AllDifferent(R.WorkerOf, reports)
  {
    DifferentExactly(R.WorkerOf, reports);
    assert forall i :: 0 <= i < |reports| ==> reports[i] in reports;
  }

  lemma {:induction false} GateRowsExactly(plan: RP.Plan, reports: seq<R.Report>)
    ensures R.RowsDistinct(R.RowTest(R.Expected(plan.scenarios)), R.Rows(reports)) <==>
      && (forall row :: row in R.Rows(reports) ==> GatePlanned(plan, row))
      && AllDifferent(R.RowId, R.Rows(reports))
  {
    var rows := R.Rows(reports);
    DifferentExactly(R.RowId, rows);
    forall row ensures R.RowTest(R.Expected(plan.scenarios))(row) <==> GatePlanned(plan, row) {
      GateExactly(plan, row);
    }
    assert forall i :: 0 <= i < |rows| ==> rows[i] in rows;
  }

  lemma {:induction false} PartitionsExactly(reports: seq<R.Report>)
    ensures Distinct(Map(R.PartitionOf, reports)) && Members(Map(R.PartitionOf, reports)) == Range(|reports|) <==>
      forall p :: 0 <= p < |reports| ==> HasPartition(reports, p)
  {
    var ps := Map(R.PartitionOf, reports);
    forall p ensures p in ps <==> HasPartition(reports, p) { MapMember(R.PartitionOf, reports, p); }
    NumbersExactly(ps);
    if forall p :: 0 <= p < |ps| ==> p in ps {
      forall p | 0 <= p < |reports| ensures HasPartition(reports, p) { assert p in ps; }
    }
    if forall p :: 0 <= p < |reports| ==> HasPartition(reports, p) {
      forall p | 0 <= p < |ps| ensures p in ps { assert HasPartition(reports, p); }
    }
  }

  lemma {:induction false} ScenariosReported(plan: RP.Plan, reports: seq<R.Report>)
    requires forall row :: row in R.Rows(reports) ==> GatePlanned(plan, row)
    ensures Members(Map(R.RowId, R.Rows(reports))) == R.Expected(plan.scenarios).Keys <==>
      forall s :: Planned(RP.ScenarioId, plan.scenarios, s) ==> Reported(reports, s.scenarioId)
  {
    ReportedIds(reports);
    PlannedIds(plan.scenarios);
    var ids, expected := Map(R.RowId, R.Rows(reports)), R.Expected(plan.scenarios);
    forall id | id in ids ensures id in expected {
      assert Reported(reports, id);
      var row :| row in R.Rows(reports) && row.item.scenarioId == id;
      assert GatePlanned(plan, row);
    }
    SameKeys(ids, expected.Keys);
    AllReported(plan.scenarios, ids);
  }

  lemma {:induction false} ReportedIds(reports: seq<R.Report>)
    ensures forall id :: id in Map(R.RowId, R.Rows(reports)) <==> Reported(reports, id)
  {
    forall id ensures id in Map(R.RowId, R.Rows(reports)) <==> Reported(reports, id) {
      MapMember(R.RowId, R.Rows(reports), id);
    }
  }

  lemma {:induction false} PlannedIds(xs: seq<RP.Scenario>)
    ensures forall id :: id in R.Expected(xs) ==> Planned(RP.ScenarioId, xs, R.Expected(xs)[id])
    ensures forall s :: Planned(RP.ScenarioId, xs, s) ==> s.scenarioId in R.Expected(xs)
  {
    var expected := R.Expected(xs);
    forall id | id in expected ensures Planned(RP.ScenarioId, xs, expected[id]) { GatesExactly(xs, expected[id]); }
    forall s | Planned(RP.ScenarioId, xs, s) ensures s.scenarioId in expected { GatesExactly(xs, s); }
  }

  lemma {:induction false} SameKeys(ids: seq<string>, keys: set<string>)
    requires forall id :: id in ids ==> id in keys
    ensures Members(ids) == keys <==> forall id :: id in keys ==> id in ids
  {
    if forall id :: id in keys ==> id in ids { assert Members(ids) == keys; }
  }

  lemma {:induction false} AllReported(xs: seq<RP.Scenario>, ids: seq<string>)
    ensures (forall id :: id in R.Expected(xs).Keys ==> id in ids) <==>
      forall s :: Planned(RP.ScenarioId, xs, s) ==> s.scenarioId in ids
  {
    var expected := R.Expected(xs);
    PlannedIds(xs);
    if forall id :: id in expected.Keys ==> id in ids {
      forall s | Planned(RP.ScenarioId, xs, s) ensures s.scenarioId in ids { assert s.scenarioId in expected.Keys; }
    }
    if forall s :: Planned(RP.ScenarioId, xs, s) ==> s.scenarioId in ids {
      forall id | id in expected.Keys ensures id in ids { assert Planned(RP.ScenarioId, xs, expected[id]); }
    }
  }
}
