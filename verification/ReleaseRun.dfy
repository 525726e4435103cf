/** Phase 40.13.24: the partition worker and the dense merger. */
module ReleaseRun {
  import opened Options
  import opened Orders
  import opened Sorting
  import opened Sequences
  import opened Loops
  import opened Partitions
  import opened ReleasePlan

  // ----- the worker

  datatype Observation = Observation(
    scenarioId: string, provider: string, gate: string, outputSha256: string, evidenceSha256: string,
    activatedNodes: int, activatedCpuMillis: int, activatedMemoryBytes: int, durationSeconds: int,
    injectedFailures: int, recoveredFailures: int, postRecoveryResultSha256: string, complete: bool)

  /** What one driver process did; `output` is absent unless it printed one object with exactly the
      required fields. */
  datatype DriverRun = DriverRun(timedOut: bool, returnCode: int, output: Option<Observation>)

  /** Everything one worker invocation depends on; the driver may answer anything. */
  datatype Job = Job(
    plan: Plan, catalog: map<string, string>, partition: int, workerId: string, timeoutSeconds: int,
    allowDisruptive: bool, approvalFile: Option<string>, driver: (Scenario, string) -> DriverRun)

  function ApprovalSha(d: Digests, job: Job): Option<string> {
    if job.approvalFile.Some? then Some(d.file(job.approvalFile.value)) else None
  }

  /** A disruptive scenario needs the flag and the exact approval evidence. */
  predicate Approved(d: Digests, job: Job, s: Scenario) {
    s.disruptive ==> job.allowDisruptive && ApprovalSha(d, job) == s.approvalEvidenceSha256
  }

  /** The observation reached the planned result before and after recovery, met every minimum, and
      recovered each injected failure. */
  predicate Met(s: Scenario, o: Observation) {
    && o.scenarioId == s.scenarioId && o.provider == s.provider && o.gate == s.gate
    && o.outputSha256 == s.expectedOutputSha256 && o.postRecoveryResultSha256 == s.expectedOutputSha256 && o.complete
    && o.activatedNodes >= s.minimumNodes && o.activatedCpuMillis >= s.minimumCpuMillis
    && o.activatedMemoryBytes >= s.minimumMemoryBytes && o.durationSeconds >= s.minimumDurationSeconds
    && o.injectedFailures == o.recoveredFailures
  }

  function RunScenario(d: Digests, job: Job, s: Scenario): (o: Option<Observation>)
    ensures o.Some? ==> Approved(d, job, s) && Met(s, o.value)
  {
    if s.disruptive && (!job.allowDisruptive || ApprovalSha(d, job) != s.approvalEvidenceSha256) then None
    else if s.scenarioId !in job.catalog then None
    else
      var run := job.driver(s, job.catalog[s.scenarioId]);
      if run.timedOut || run.returnCode != 0 || run.output.None? || !Met(s, run.output.value) then None else run.output
  }

  function Runner(d: Digests, job: Job): Scenario -> Option<Observation> {
    (s: Scenario) => RunScenario(d, job, s)
  }

  function Assigned(xs: seq<Scenario>, partition: int): (r: seq<Scenario>)
    ensures forall s :: s in r <==> s in xs && s.partition == partition
  {
    if xs == [] then [] else
      (if xs[0].partition == partition then [xs[0]] else []) + Assigned(xs[1..], partition)
  }

  predicate ObservationLe(a: Observation, b: Observation) {
    Le(a.scenarioId, b.scenarioId)
  }

  lemma {:induction false} ObservationOrder()
    ensures TotalPreorder(ObservationLe)
  {
    LeIsTotalOrder();
  }

  function SortObservations(xs: seq<Observation>): (r: seq<Observation>)
    ensures multiset(r) == multiset(xs) && SortedBy(r, ObservationLe)
  {
    ObservationOrder();
    SortBy(xs, ObservationLe)
  }

  datatype Report = Report(
    formatVersion: int, planSha256: string, partition: int, workerId: string, observations: seq<Observation>,
    complete: bool)

  function RunAssigned(d: Digests, job: Job): Option<seq<Observation>> {
    Traverse(Runner(d, job), Assigned(job.plan.scenarios, job.partition))
  }

  predicate JobAccepted(d: Digests, job: Job) {
    && 0 <= job.partition < job.plan.partitionCount && job.workerId != "" && job.timeoutSeconds >= 1
    && RunAssigned(d, job).Some?
  }

  function ReportOf(d: Digests, job: Job): Report
    requires RunAssigned(d, job).Some?
  {
    Report(1, d.plan(job.plan), job.partition, job.workerId, SortObservations(RunAssigned(d, job).value), true)
  }

  /** The loop over the assigned scenarios, which stops at the first failure. */
  method RunScenarios(run: Scenario -> Option<Observation>, scenarios: seq<Scenario>)
    returns (r: Option<seq<Observation>>)
    ensures r == Traverse(run, scenarios)
  {
    var observations := [];
    assert scenarios[..0] == [];
    for i := 0 to |scenarios|
      invariant Traverse(run, scenarios[..i]) == Some(observations)
    {
      var observation := run(scenarios[i]);
      TraverseStep(run, scenarios, i, observations);
      if observation.None? { return None; }
      observations := observations + [observation.value];
    }
    assert scenarios[..|scenarios|] == scenarios;
    return Some(observations);
  }

  method RunPartition(d: Digests, job: Job) returns (report: Option<Report>)
    ensures report == if JobAccepted(d, job) then Some(ReportOf(d, job)) else None
  {
    if !(0 <= job.partition < job.plan.partitionCount) || job.workerId == "" || job.timeoutSeconds < 1 { return None; }
    var observations := RunScenarios(Runner(d, job), Assigned(job.plan.scenarios, job.partition));
    if observations.None? { return None; }
    return Some(Report(1, d.plan(job.plan), job.partition, job.workerId, SortObservations(observations.value), true));
  }

  // ----- the merger's checks

  function Expected(xs: seq<Scenario>): (m: map<string, Scenario>)
    ensures forall id :: id in m ==> m[id].scenarioId == id && m[id] in xs
    ensures forall s :: s in xs ==> s.scenarioId in m
  {
    if xs == [] then map[] else
      var s := xs[|xs|-1];
      Expected(xs[..|xs|-1])[s.scenarioId := s]
  }

  /** An observation together with the partition of the report that carries it. */
  datatype Row = Row(partition: int, item: Observation)

  function RowIn(partition: int): Observation -> Row {
    (item: Observation) => Row(partition, item)
  }

  function RowsOf(r: Report): seq<Row> {
    Map(RowIn(r.partition), r.observations)
  }

  /** All observations, report after report. */
  function Rows(reports: seq<Report>): seq<Row> {
    Flat(RowsOf, reports)
  }

  function RowId(row: Row): string { row.item.scenarioId }
  function PartitionOf(r: Report): int { r.partition }
  function WorkerOf(r: Report): string { r.workerId }

  /** The merger's recheck of one row: it does not look at the minimums again. */
  predicate RowAccepted(expected: map<string, Scenario>, row: Row) {
    var o := row.item;
    && o.scenarioId in expected
    && var s := expected[o.scenarioId];
       && s.partition == row.partition && o.provider == s.provider && o.gate == s.gate
       && o.outputSha256 == s.expectedOutputSha256 && o.postRecoveryResultSha256 == s.expectedOutputSha256
       && o.complete && o.injectedFailures == o.recoveredFailures
  }

  function RowTest(expected: map<string, Scenario>): Row -> bool {
    (row: Row) => RowAccepted(expected, row)
  }

  function ReportTest(planSha: string): Report -> bool {
    (r: Report) => r.formatVersion == 1 && r.planSha256 == planSha && r.complete
  }

  predicate ReportsDistinct(planSha: string, reports: seq<Report>) {
    Each(ReportTest(planSha), reports) && Distinct(Map(PartitionOf, reports)) && Distinct(Map(WorkerOf, reports))
  }

  predicate RowsDistinct(test: Row -> bool, rows: seq<Row>) {
    Each(test, rows) && Distinct(Map(RowId, rows))
  }

  /** The barrier: one report for each partition, and exactly one good observation of each scenario. */
  predicate BarrierPassed(d: Digests, plan: Plan, reports: seq<Report>) {
    var expected := Expected(plan.scenarios);
    && |reports| == plan.partitionCount
    && ReportsDistinct(d.plan(plan), reports)
    && RowsDistinct(RowTest(expected), Rows(reports))
    && Members(Map(PartitionOf, reports)) == Range(plan.partitionCount)
    && Members(Map(RowId, Rows(reports))) == expected.Keys
  }

  // ----- the certificate

  /** The `observed` dictionary. */
  function Observed(rows: seq<Row>): (m: map<string, Observation>)
    ensures m.Keys == Members(Map(RowId, rows))
    ensures forall id :: id in m ==> m[id].scenarioId == id
  {
    if rows == [] then map[] else
      var init, item := rows[..|rows|-1], rows[|rows|-1].item;
      assert rows == init + [rows[|rows|-1]];
      MapSnoc(RowId, init, rows[|rows|-1]);
      MembersSnoc(Map(RowId, init), item.scenarioId);
      Observed(init)[item.scenarioId := item]
  }

  function ProvidersIn(observed: map<string, Observation>): set<string> {
    set id | id in observed :: observed[id].provider
  }

  function GatesIn(observed: map<string, Observation>): set<string> {
    set id | id in observed :: observed[id].gate
  }

  function EvidenceIn(observed: map<string, Observation>): map<string, string> {
    map id | id in observed :: observed[id].evidenceSha256
  }

  function Line(id: string, evidence: string): string {
    id + "\0" + (evidence + "\0")
  }

  function Lines(names: seq<string>, evidence: map<string, string>): string
    requires forall id :: id in names ==> id in evidence
  {
    if names == [] then [] else Line(names[0], evidence[names[0]]) + Lines(names[1..], evidence)
  }

  /** The text the evidence root hashes: a function of the scenario-to-evidence map alone. */
  function EvidenceText(evidence: map<string, string>): string {
    Lines(SortedSet(evidence.Keys), evidence)
  }

  datatype Certificate = Certificate(
    planSha256: string, releaseSha256: string, performanceCertificateSha256: string, semanticEvidenceSha256: string,
    qualifiedProviders: seq<string>, qualifiedGates: seq<string>, evidenceRootSha256: string)

  function CertificateOf(d: Digests, plan: Plan, observed: map<string, Observation>): Certificate {
    Certificate(d.plan(plan), plan.releaseSha256, plan.performanceCertificateSha256, plan.semanticEvidenceSha256,
      SortedSet(ProvidersIn(observed)), SortedSet(GatesIn(observed)), d.file(EvidenceText(EvidenceIn(observed))))
  }

  predicate MergeAccepted(d: Digests, plan: Plan, reports: seq<Report>) {
    var observed := Observed(Rows(reports));
    BarrierPassed(d, plan, reports) && |ProvidersIn(observed)| == 5 && |GatesIn(observed)| == 15
  }

  // ----- the merger

  /** The inner loop over one report's observations, continuing the `observed` dictionary. */
  method MergeRows(test: Row -> bool, ghost before: seq<Row>, rows: seq<Row>, start: map<string, Observation>)
    returns (ok: bool, observed: map<string, Observation>)
    requires RowsDistinct(test, before) && start == Observed(before)
    ensures ok <==> RowsDistinct(test, before + rows)
    ensures ok ==> observed == Observed(before + rows)
  {
    observed := start;
    assert before + rows[..0] == before;
    for i := 0 to |rows|
      invariant RowsDistinct(test, before + rows[..i])
      invariant observed == Observed(before + rows[..i])
    {
      RowStep(test, before, rows, i);
      if RowId(rows[i]) in observed || !test(rows[i]) { return false, observed; }
      observed := observed[RowId(rows[i]) := rows[i].item];
    }
    assert rows[..|rows|] == rows;
    ok := true;
  }

  lemma {:induction false} RowStep(test: Row -> bool, before: seq<Row>, rows: seq<Row>, i: nat)
    requires i < |rows| && RowsDistinct(test, before + rows[..i])
    ensures RowId(rows[i]) !in Observed(before + rows[..i]) && test(rows[i]) ==>
      RowsDistinct(test, before + rows[..i+1])
    ensures RowsDistinct(test, before + rows) ==> RowId(rows[i]) !in Observed(before + rows[..i]) && test(rows[i])
    ensures Observed(before + rows[..i+1]) == Observed(before + rows[..i])[RowId(rows[i]) := rows[i].item]
  {
    var all, k := before + rows, |before| + i;
    assert all[..k] == before + rows[..i] && all[..k+1] == before + rows[..i+1] && all[k] == rows[i];
    EachStep(test, all, k);
    MapPrefix(RowId, all, k);
    ObservedStep(all, k);
  }

  lemma {:induction false} ObservedStep(all: seq<Row>, k: nat)
    requires k < |all|
    ensures Observed(all[..k+1]) == Observed(all[..k])[all[k].item.scenarioId := all[k].item]
  {
    var t := all[..k+1];
    assert t[..k] == all[..k] && t[k] == all[k];
  }

  /** The outer loop, with its `partitions` and `workers` sets. */
  method MergeReports(planSha: string, test: Row -> bool, reports: seq<Report>)
    returns (ok: bool, partitions: set<int>, observed: map<string, Observation>)
    ensures ok <==> ReportsDistinct(planSha, reports) && RowsDistinct(test, Rows(reports))
    ensures ok ==> partitions == Members(Map(PartitionOf, reports)) && observed == Observed(Rows(reports))
  {
    var workers: set<string> := {};
    partitions, observed := {}, map[];
    assert reports[..0] == [];
    for i := 0 to |reports|
      invariant ReportsDistinct(planSha, reports[..i])
      invariant RowsDistinct(test, Rows(reports[..i]))
      invariant partitions == Members(Map(PartitionOf, reports[..i]))
      invariant workers == Members(Map(WorkerOf, reports[..i]))
      invariant observed == Observed(Rows(reports[..i]))
    {
      var r := reports[i];
      ReportStep(planSha, reports, i);
      if !ReportTest(planSha)(r) || r.partition in partitions || r.workerId in workers {
        return false, partitions, observed;
      }
      partitions, workers := partitions + {r.partition}, workers + {r.workerId};
      FlatStep(RowsOf, reports, i);
      ok, observed := MergeRows(test, Rows(reports[..i]), RowsOf(r), observed);
      if !ok {
        RowsPrefix(test, reports, i + 1);
        return;
      }
    }
    assert reports[..|reports|] == reports;
    ok := true;
  }

  predicate NewReport(planSha: string, before: seq<Report>, r: Report) {
    ReportTest(planSha)(r) && r.partition !in Map(PartitionOf, before) && r.workerId !in Map(WorkerOf, before)
  }

  lemma {:induction false} ReportStep(planSha: string, reports: seq<Report>, i: nat)
    requires i < |reports| && ReportsDistinct(planSha, reports[..i])
    ensures Members(Map(PartitionOf, reports[..i+1]))
      == Members(Map(PartitionOf, reports[..i])) + {reports[i].partition}
    ensures Members(Map(WorkerOf, reports[..i+1])) == Members(Map(WorkerOf, reports[..i])) + {reports[i].workerId}
    ensures NewReport(planSha, reports[..i], reports[i]) ==> ReportsDistinct(planSha, reports[..i+1])
    ensures ReportsDistinct(planSha, reports) ==> NewReport(planSha, reports[..i], reports[i])
  {
    EachStep(ReportTest(planSha), reports, i);
    MapPrefix(PartitionOf, reports, i);
    MapPrefix(WorkerOf, reports, i);
  }

  lemma {:induction false} RowsPrefix(test: Row -> bool, reports: seq<Report>, i: nat)
    requires i <= |reports|
    ensures RowsDistinct(test, Rows(reports)) ==> RowsDistinct(test, Rows(reports[..i]))
    decreases |reports| - i
  {
    if i == |reports| {
      assert reports[..i] == reports;
    } else {
      RowsPrefix(test, reports, i + 1);
      FlatStep(RowsOf, reports, i);
      DistinctFront(test, Rows(reports[..i]), RowsOf(reports[i]));
    }
  }

  lemma {:induction false} DistinctFront(test: Row -> bool, a: seq<Row>, b: seq<Row>)
    ensures RowsDistinct(test, a + b) ==> RowsDistinct(test, a)
  {
    var s := a + b;
    var ids, front := Map(RowId, s), Map(RowId, a);
    if RowsDistinct(test, s) {
      forall i | 0 <= i < |a| ensures test(a[i]) { assert s[i] == a[i]; }
      forall i, j | 0 <= i < j < |front| ensures front[i] != front[j] {
        assert s[i] == a[i] && s[j] == a[j] && ids[i] != ids[j];
      }
    }
  }

  method HashEvidence(observed: map<string, Observation>) returns (text: string)
    ensures text == EvidenceText(EvidenceIn(observed))
  {
    assert EvidenceIn(observed).Keys == observed.Keys;
    text := HashLines(SortedSet(observed.Keys), EvidenceIn(observed));
  }

  /** The loop over the sorted scenario identifiers. */
  method HashLines(names: seq<string>, evidence: map<string, string>) returns (text: string)
    requires forall id :: id in names ==> id in evidence
    ensures text == Lines(names, evidence)
  {
    text := [];
    assert names[0..] == names;
    for i := 0 to |names|
      invariant text + Lines(names[i..], evidence) == Lines(names, evidence)
    {
      LinesStep(text, names, evidence, i);
      text := text + (names[i] + "\0" + (evidence[names[i]] + "\0"));
    }
    assert names[|names|..] == [] && text + [] == text;
  }

  lemma {:induction false} LinesStep(text: string, names: seq<string>, evidence: map<string, string>, i: nat)
    requires i < |names| && forall id :: id in names ==> id in evidence
    ensures text + Line(names[i], evidence[names[i]]) + Lines(names[i+1..], evidence)
      == text + Lines(names[i..], evidence)
  {
    assert names[i..][1..] == names[i+1..];
    Associate(text, Line(names[i], evidence[names[i]]), Lines(names[i+1..], evidence));
  }

  /** The certificate over a passed barrier, unless a provider or a gate is missing. */
  method Issue(d: Digests, plan: Plan, observed: map<string, Observation>) returns (certificate: Option<Certificate>)
    ensures certificate.Some? <==> |ProvidersIn(observed)| == 5 && |GatesIn(observed)| == 15
    ensures certificate.Some? ==> certificate.value == CertificateOf(d, plan, observed)
  {
    var text := HashEvidence(observed);
    var providers, gates := SortedSet(ProvidersIn(observed)), SortedSet(GatesIn(observed));
    if |providers| != 5 || |gates| != 15 { return None; }
    return Some(Certificate(d.plan(plan), plan.releaseSha256, plan.performanceCertificateSha256,
                            plan.semanticEvidenceSha256, providers, gates, d.file(text)));
  }

  method Merge(d: Digests, plan: Plan, reports: seq<Report>) returns (certificate: Option<Certificate>)
    ensures certificate.Some? <==> MergeAccepted(d, plan, reports)
    ensures certificate.Some? ==> certificate.value == CertificateOf(d, plan, Observed(Rows(reports)))
  {
    if |reports| != plan.partitionCount { return None; }
    var expected := Expected(plan.scenarios);
    var ok, partitions, observed := MergeReports(d.plan(plan), RowTest(expected), reports);
    if !ok || partitions != Range(plan.partitionCount) || observed.Keys != expected.Keys { return None; }
    certificate := Issue(d, plan, observed);
  }
}
