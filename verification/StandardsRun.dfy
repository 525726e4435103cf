/** Phase 40.13.22: the partition worker and the all-partitions merger. */
module StandardsRun {
  import opened HexSha
  import opened Options
  import opened Orders
  import opened Sorting
  import opened Sequences
  import opened Partitions
  import opened StandardsPlan

  // ----- drivers

  datatype Observation = Observation(
    formatVersion: int, engine: string, engineVersion: string, caseId: string, outcome: string,
    resultSha256: Option<string>, errorClass: Option<string>, complete: bool)

  /** What one driver process did; `output` is absent unless it printed one object with exactly
      the required fields. */
  datatype DriverRun =
    | TimedOut
    | Exited(stdoutBytes: nat, stderrBytes: nat, returnCode: int, output: Option<Observation>, milliseconds: nat)

  /** `run_driver`'s acceptance rules. */
  predicate DriverAccepted(run: DriverRun, engine: string, version: string, caseId: string, maxBytes: nat) {
    && run.Exited?
    && run.stdoutBytes <= maxBytes && run.stderrBytes <= maxBytes && run.returnCode == 0
    && run.output.Some?
    && var o := run.output.value;
       && o.formatVersion == 1
       && o.engine == engine && o.engineVersion == version && o.caseId == caseId
       && o.complete
       && (o.outcome == SUCCESS || o.outcome == FAILURE)
       && (if o.outcome == SUCCESS then o.resultSha256.Some? && IsSha(o.resultSha256.value) && o.errorClass.None?
           else o.resultSha256.None? && o.errorClass.Some?)
  }

  datatype Row = Row(
    caseId: string, family: string, partition: int, ngkgOutcome: string, oracleOutcome: string,
    ngkgResultSha256: Option<string>, oracleResultSha256: Option<string>,
    ngkgErrorClass: Option<string>, oracleErrorClass: Option<string>, complete: bool, durationMilliseconds: nat)

  /** The driver behaviour of one worker run: any two responses for each case and descriptor. */
  datatype Responses = Responses(ngkg: (Case, string) -> DriverRun, oracle: (Case, string) -> DriverRun)

  function Version(suite: Suite, engine: string): string {
    if engine == "ngkg" then suite.ngkg
    else if engine == "w3c-expected" then suite.w3cExpected
    else if engine == "apache-jena" then suite.apacheJena
    else suite.hermit
  }

  predicate KnownOracle(name: string) {
    name == "w3c-expected" || name == "apache-jena" || name == "hermit"
  }

  /** `run_case`: both engines at the planned outcome, agreeing with each other and the plan. */
  function RunCase(suite: Suite, maxBytes: nat, responses: Responses, c: Case, descriptor: string): Option<Row> {
    var ngkg, oracle := responses.ngkg(c, descriptor), responses.oracle(c, descriptor);
    if !DriverAccepted(ngkg, "ngkg", Version(suite, "ngkg"), c.caseId, maxBytes) then None
    else if !KnownOracle(c.oracle) then None
    else if !DriverAccepted(oracle, c.oracle, Version(suite, c.oracle), c.caseId, maxBytes) then None
    else
      var n, o := ngkg.output.value, oracle.output.value;
      if n.outcome != c.expectedOutcome || o.outcome != c.expectedOutcome then None
      else if c.expectedOutcome == SUCCESS && n.resultSha256 != o.resultSha256 then None
      else if c.expectedOutcome == SUCCESS && c.expectedResultSha256.Some? && n.resultSha256 != c.expectedResultSha256
      then None
      else if c.expectedOutcome != SUCCESS
              && (n.errorClass != c.expectedErrorClass || o.errorClass != c.expectedErrorClass) then None
      else Some(Row(c.caseId, c.family, c.partition, n.outcome, o.outcome, n.resultSha256, o.resultSha256,
                    n.errorClass, o.errorClass, true, ngkg.milliseconds + oracle.milliseconds))
  }

  /** What a certificate claims of one case: both engines reached the planned outcome, and
      agree on one well-formed digest (the normative one if there is one) or on the planned error class. */
  predicate Passed(c: Case, row: Row) {
    && row.caseId == c.caseId && row.family == c.family && row.partition == c.partition && row.complete
    && row.ngkgOutcome == row.oracleOutcome == c.expectedOutcome
    && (c.expectedOutcome == SUCCESS ==>
          && row.ngkgResultSha256 == row.oracleResultSha256
          && row.ngkgResultSha256.Some? && IsSha(row.ngkgResultSha256.value)
          && (c.expectedResultSha256.Some? ==> row.ngkgResultSha256 == c.expectedResultSha256)
          && row.ngkgErrorClass.None? && row.oracleErrorClass.None?)
    && (c.expectedOutcome == FAILURE ==>
          && row.ngkgErrorClass == row.oracleErrorClass == c.expectedErrorClass
          && row.ngkgErrorClass.Some?
          && row.ngkgResultSha256.None? && row.oracleResultSha256.None?)
    && (c.expectedOutcome == SUCCESS || c.expectedOutcome == FAILURE)
  }

  lemma {:induction false} RunCasePasses(suite: Suite, maxBytes: nat, responses: Responses, c: Case, descriptor: string)
    requires RunCase(suite, maxBytes, responses, c, descriptor).Some?
    ensures Passed(c, RunCase(suite, maxBytes, responses, c, descriptor).value)
  {
  }

  /** The run ended well within the limits and printed exactly this object. */
  predicate Printed(run: DriverRun, maxBytes: nat, o: Observation) {
    run.Exited? && run.returnCode == 0 && run.stdoutBytes <= maxBytes && run.stderrBytes <= maxBytes
    && run.output == Some(o)
  }

  /** The planned oracle and the version the suite pins for it. */
  predicate OracleVersion(suite: Suite, oracle: string, version: string) {
    || (oracle == "w3c-expected" && version == suite.w3cExpected)
    || (oracle == "apache-jena" && version == suite.apacheJena)
    || (oracle == "hermit" && version == suite.hermit)
  }

  /** Both engines, each in the version the suite pins, ended at one terminal answer. */
  predicate BothPrinted(
    suite: Suite, maxBytes: nat, c: Case, ngkg: DriverRun, oracle: DriverRun, version: string,
    outcome: string, result: Option<string>, errorClass: Option<string>)
  {
    && Printed(ngkg, maxBytes, Observation(1, "ngkg", suite.ngkg, c.caseId, outcome, result, errorClass, true))
    && Printed(oracle, maxBytes, Observation(1, c.oracle, version, c.caseId, outcome, result, errorClass, true))
  }

  /** The answer the plan asks for: one digest in lower-case hexadecimal, the normative one if there is
      one, or the planned error class. */
  predicate PlannedAnswer(c: Case, outcome: string, result: Option<string>, errorClass: Option<string>) {
    || (c.expectedOutcome == outcome == "success" && errorClass == None && result.Some? && IsSha(result.value)
        && (c.expectedResultSha256 == None || c.expectedResultSha256 == result))
    || (c.expectedOutcome == outcome == "failure" && result == None && errorClass.Some?
        && c.expectedErrorClass == errorClass)
  }

  /** Both engines ended at one answer, it is the planned one, and the row records it. */
  ghost predicate Agreed(
    suite: Suite, maxBytes: nat, c: Case, ngkg: DriverRun, oracle: DriverRun, row: Row)
  {
    exists version, outcome, result, errorClass ::
      && OracleVersion(suite, c.oracle, version)
      && BothPrinted(suite, maxBytes, c, ngkg, oracle, version, outcome, result, errorClass)
      && PlannedAnswer(c, outcome, result, errorClass)
      && row == Row(c.caseId, c.family, c.partition, outcome, outcome, result, result, errorClass, errorClass, true,
                    ngkg.milliseconds + oracle.milliseconds)
  }

  /** A case is accepted exactly when both engines agree on the planned answer: no good pair of runs is refused. */
  lemma {:induction false} RunCaseExactly(
      suite: Suite, maxBytes: nat, responses: Responses, c: Case, descriptor: string, row: Row)
    ensures RunCase(suite, maxBytes, responses, c, descriptor) == Some(row) <==>
      Agreed(suite, maxBytes, c, responses.ngkg(c, descriptor), responses.oracle(c, descriptor), row)
  {
    var ngkg, oracle := responses.ngkg(c, descriptor), responses.oracle(c, descriptor);
    if RunCase(suite, maxBytes, responses, c, descriptor) == Some(row) {
      var n, o := ngkg.output.value, oracle.output.value;
      assert OracleVersion(suite, c.oracle, o.engineVersion);
      assert BothPrinted(
        suite, maxBytes, c, ngkg, oracle, o.engineVersion, n.outcome, n.resultSha256, n.errorClass);
    }
  }

  // ----- the worker

  function Assigned(cs: seq<Case>, partition: int): (r: seq<Case>)
    ensures forall c :: c in r <==> c in cs && c.partition == partition
  {
    if cs == [] then [] else
      (if cs[0].partition == partition then [cs[0]] else []) + Assigned(cs[1..], partition)
  }

  /** One future: the case with its catalog entry. */
  function CaseRunner(job: Job): Case -> Option<Row> {
    (c: Case) =>
      if c.caseId in job.catalog
      then RunCase(job.suite, job.maxBytes, job.responses, c, job.catalog[c.caseId]) else None
  }

  /** The results of all futures, or none if any of them raised. */
  function RunCases(job: Job, cs: seq<Case>): Option<seq<Row>> {
    Traverse(CaseRunner(job), cs)
  }

  lemma {:induction false} RunCasesPass(job: Job, cs: seq<Case>, rows: seq<Row>)
    requires RunCases(job, cs) == Some(rows)
    ensures |rows| == |cs|
    ensures forall i :: 0 <= i < |cs| ==> Passed(cs[i], rows[i]) && CaseRunner(job)(cs[i]) == Some(rows[i])
  {
    forall i | 0 <= i < |cs| ensures Passed(cs[i], rows[i]) && CaseRunner(job)(cs[i]) == Some(rows[i]) {
      assert CaseRunner(job)(cs[i]) == Some(rows[i]);
      RunCasePasses(job.suite, job.maxBytes, job.responses, cs[i], job.catalog[cs[i].caseId]);
    }
  }

  predicate RowLe(a: Row, b: Row) {
    Le(a.caseId, b.caseId)
  }

  lemma {:induction false} RowOrder()
    ensures TotalPreorder(RowLe)
  {
    LeIsTotalOrder();
  }

  function SortRows(rows: seq<Row>): (r: seq<Row>)
    ensures multiset(r) == multiset(rows) && SortedBy(r, RowLe)
  {
    RowOrder();
    SortBy(rows, RowLe)
  }

  datatype Report = Report(
    formatVersion: int, planSha256: string, partition: int, workerId: string, observations: seq<Row>, complete: bool)

  /** Everything one worker invocation depends on. */
  datatype Job = Job(
    plan: Plan, catalog: map<string, string>, suite: Suite, partition: int, workerId: string, jobs: int,
    timeoutSeconds: int, maxBytes: nat, responses: Responses)

  predicate OptionsValid(job: Job) {
    job.jobs >= 1 && 1 <= job.timeoutSeconds <= 86400 && 1024 <= job.maxBytes <= 64 * 1024 * 1024
  }

  ghost predicate JobAccepted(d: Digests, job: Job) {
    && OptionsValid(job)
    && d.suite(job.suite) == job.plan.suiteInventorySha256
    && PlanValid(d, job.plan, job.catalog)
    && 0 <= job.partition < job.plan.partitionCount
    && RunCases(job, Assigned(job.plan.cases, job.partition)).Some?
  }

  function ReportOf(d: Digests, job: Job): Report
    requires RunCases(job, Assigned(job.plan.cases, job.partition)).Some?
  {
    var rows := RunCases(job, Assigned(job.plan.cases, job.partition)).value;
    Report(1, d.plan(job.plan), job.partition, job.workerId, SortRows(rows), true)
  }

  /** The worker: a report once every assigned case has a complete pair, and none otherwise. */
  method RunPartition(d: Digests, job: Job) returns (report: Option<Report>)
    ensures report.Some? <==> JobAccepted(d, job)
    ensures report.Some? ==> report.value == ReportOf(d, job)
  {
    if !OptionsValid(job) || d.suite(job.suite) != job.plan.suiteInventorySha256 { return None; }
    var ok := ValidatePlan(d, job.plan, job.catalog);
    if !ok || !(0 <= job.partition < job.plan.partitionCount) { return None; }
    var cases := Assigned(job.plan.cases, job.partition);
    var rows := RunCases(job, cases);
    if rows.None? { return None; }
    return Some(Report(1, d.plan(job.plan), job.partition, job.workerId, SortRows(rows.value), true));
  }

  // ----- the merger

  /** `{case["caseId"]: case for case in plan["cases"]}` */
  function Expected(cs: seq<Case>): (m: map<string, Case>)
    ensures forall id :: id in m ==> m[id].caseId == id && m[id] in cs
    ensures forall c :: c in cs ==> c.caseId in m
  {
    if cs == [] then map[] else
      var c := cs[|cs|-1];
      Expected(cs[..|cs|-1])[c.caseId := c]
  }

  function AssignedIds(expected: map<string, Case>, index: int): set<string> {
    set id | id in expected && expected[id].partition == index
  }

  /** The merger's own recheck of one row: it looks at neither the normative digest nor its form. */
  predicate RowAccepted(c: Case, index: int, row: Row) {
    && row.family == c.family && row.partition == index && row.complete
    && (if c.expectedOutcome == SUCCESS
        then && row.ngkgOutcome == SUCCESS && row.oracleOutcome == SUCCESS
             && row.ngkgResultSha256 == row.oracleResultSha256
        else && row.ngkgOutcome == FAILURE && row.oracleOutcome == FAILURE
             && row.ngkgErrorClass == c.expectedErrorClass && row.oracleErrorClass == c.expectedErrorClass)
  }

  function RowId(row: Row): string { row.caseId }
  function WorkerOf(r: Report): string { r.workerId }

  predicate RowsAccepted(expected: map<string, Case>, index: int, rows: seq<Row>) {
    forall i :: 0 <= i < |rows| ==> rows[i].caseId in expected && RowAccepted(expected[rows[i].caseId], index, rows[i])
  }

  predicate ReportAccepted(planSha: string, expected: map<string, Case>, index: int, r: Report) {
    && r.formatVersion == 1 && r.planSha256 == planSha && r.partition == index && r.complete
    && r.workerId != ""
    && Map(RowId, r.observations) == SortedSet(AssignedIds(expected, index))
    && RowsAccepted(expected, index, r.observations)
  }

  function Acceptor(planSha: string, expected: map<string, Case>): (int, Report) -> bool {
    (index: int, r: Report) => ReportAccepted(planSha, expected, index, r)
  }

  predicate ReportsAccepted(planSha: string, expected: map<string, Case>, sorted: seq<Report>) {
    AllAccepted(Acceptor(planSha, expected), sorted)
  }

  predicate ReportLe(a: Report, b: Report) {
    a.partition <= b.partition
  }

  function SortReports(reports: seq<Report>): (r: seq<Report>)
    ensures multiset(r) == multiset(reports) && SortedBy(r, ReportLe) && |r| == |reports|
  {
    var r := SortBy(reports, ReportLe);
    SameMembers(r, reports);
    r
  }

  predicate MergeAccepted(d: Digests, plan: Plan, reports: seq<Report>) {
    var expected, sorted := Expected(plan.cases), SortReports(reports);
    && |reports| == plan.partitionCount
    && ReportsAccepted(d.plan(plan), expected, sorted)
    && Distinct(Map(WorkerOf, sorted))
    && (forall id :: id in expected ==> 0 <= expected[id].partition < |sorted|)
  }

  datatype Certificate = Certificate(
    planSha256: string, caseCount: nat, casesByFamily: map<string, nat>, oracleEngines: seq<string>)

  function FamilyCount(expected: map<string, Case>, family: string): nat {
    |set id | id in expected && expected[id].family == family|
  }

  function CertificateOf(d: Digests, plan: Plan): Certificate {
    var expected := Expected(plan.cases);
    Certificate(d.plan(plan), |expected|,
      map family | family in (set id | id in expected :: expected[id].family) :: FamilyCount(expected, family),
      SortedSet(set id | id in expected :: expected[id].oracle))
  }

  /** The inner loop over one report's rows, with the shared `observed` set. */
  method MergeRows(expected: map<string, Case>, index: int, rows: seq<Row>, seen: set<string>)
    returns (observed: set<string>, ok: bool)
    requires forall i :: 0 <= i < |rows| ==> rows[i].caseId in expected && rows[i].caseId !in seen
    requires forall i, j :: 0 <= i < j < |rows| ==> rows[i].caseId != rows[j].caseId
    ensures ok <==> RowsAccepted(expected, index, rows)
    ensures ok ==> observed == seen + set i | 0 <= i < |rows| :: rows[i].caseId
  {
    observed := seen;
    for i := 0 to |rows|
      invariant forall j :: 0 <= j < i ==> RowAccepted(expected[rows[j].caseId], index, rows[j])
      invariant observed == seen + set j | 0 <= j < i :: rows[j].caseId
    {
      var row := rows[i];
      if row.caseId in observed || !RowAccepted(expected[row.caseId], index, row) { return observed, false; }
      observed := observed + {row.caseId};
    }
    return observed, true;
  }

  /** Rows that list exactly the assigned identifiers are pairwise different and all expected. */
  lemma {:induction false} ExactAssignment(expected: map<string, Case>, index: int, rows: seq<Row>)
    requires Map(RowId, rows) == SortedSet(AssignedIds(expected, index))
    ensures forall i :: 0 <= i < |rows| ==> rows[i].caseId in AssignedIds(expected, index)
    ensures forall i, j :: 0 <= i < j < |rows| ==> rows[i].caseId != rows[j].caseId
    ensures (set i | 0 <= i < |rows| :: rows[i].caseId) == AssignedIds(expected, index)
  {
    RowsListIds(rows, SortedSet(AssignedIds(expected, index)), AssignedIds(expected, index));
  }

  lemma {:induction false} RowsListIds(rows: seq<Row>, ids: seq<string>, members: set<string>)
    requires Map(RowId, rows) == ids && Distinct(ids) && forall id :: id in members <==> id in ids
    ensures forall i :: 0 <= i < |rows| ==> rows[i].caseId in members
    ensures forall i, j :: 0 <= i < j < |rows| ==> rows[i].caseId != rows[j].caseId
    ensures (set i | 0 <= i < |rows| :: rows[i].caseId) == members
  {
    var named := set i | 0 <= i < |rows| :: rows[i].caseId;
    forall i | 0 <= i < |rows| ensures rows[i].caseId == ids[i] && rows[i].caseId in members {
      assert Map(RowId, rows)[i] == RowId(rows[i]);
      assert ids[i] in ids;
    }
    forall id | id in members ensures id in named {
      var i :| 0 <= i < |ids| && ids[i] == id;
      assert rows[i].caseId == id;
    }
  }

  /** One turn of the outer loop. */
  method MergeReport(planSha: string, expected: map<string, Case>, index: int, r: Report, seen: set<string>)
    returns (observed: set<string>, ok: bool)
    requires seen !! AssignedIds(expected, index)
    ensures ok <==> Acceptor(planSha, expected)(index, r)
    ensures ok ==> observed == seen + AssignedIds(expected, index)
  {
    observed := seen;
    if r.formatVersion != 1 || r.planSha256 != planSha || r.partition != index || !r.complete {
      return observed, false;
    }
    if r.workerId == "" { return observed, false; }
    if Map(RowId, r.observations) != SortedSet(AssignedIds(expected, index)) { return observed, false; }
    ExactAssignment(expected, index, r.observations);
    observed, ok := MergeRows(expected, index, r.observations, observed);
  }

  /** The outer loop, with the shared `workers` and `observed` sets. */
  method MergeReports(planSha: string, expected: map<string, Case>, sorted: seq<Report>)
    returns (observed: set<string>, ok: bool)
    ensures ok <==> ReportsAccepted(planSha, expected, sorted) && Distinct(Map(WorkerOf, sorted))
    ensures ok ==> observed == IdsBelow(expected, |sorted|)
  {
    var workers: set<string> := {};
    observed := {};
    assert sorted[..0] == [];
    for index := 0 to |sorted|
      invariant AllAccepted(Acceptor(planSha, expected), sorted[..index])
      invariant Distinct(Map(WorkerOf, sorted[..index])) && workers == Members(Map(WorkerOf, sorted[..index]))
      invariant observed == IdsBelow(expected, index)
    {
      var r := sorted[index];
      MapPrefix(WorkerOf, sorted, index);
      AcceptedStep(Acceptor(planSha, expected), sorted, index);
      IdsBelowStep(expected, index);
      if r.workerId in workers { return observed, false; }
      workers := workers + {r.workerId};
      observed, ok := MergeReport(planSha, expected, index, r, observed);
      if !ok { return; }
    }
    assert sorted[..|sorted|] == sorted;
    return observed, true;
  }

  function IdsBelow(expected: map<string, Case>, n: int): set<string> {
    set id | id in expected && 0 <= expected[id].partition < n
  }

  lemma {:induction false} IdsBelowStep(expected: map<string, Case>, n: nat)
    ensures IdsBelow(expected, n + 1) == IdsBelow(expected, n) + AssignedIds(expected, n)
    ensures IdsBelow(expected, n) !! AssignedIds(expected, n)
  {
  }

  method Merge(d: Digests, plan: Plan, reports: seq<Report>) returns (certificate: Option<Certificate>)
    ensures certificate == if MergeAccepted(d, plan, reports) then Some(CertificateOf(d, plan)) else None
  {
    if |reports| != plan.partitionCount { return None; }
    var sorted, expected := SortReports(reports), Expected(plan.cases);
    var observed, ok := MergeReports(d.plan(plan), expected, sorted);
    if !ok || observed != expected.Keys { return None; }
    return Some(CertificateOf(d, plan));
  }
}
