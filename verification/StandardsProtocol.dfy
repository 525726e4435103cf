/** Phase 40.13.22 as a protocol: workers run, crash, rerun and overwrite reports in any order,
    with any driver behaviour and on any plan; then the merger reads the report directory. */
module StandardsProtocol {
  import opened Options
  import opened Orders
  import opened Sorting
  import opened Sequences
  import opened Partitions
  import opened ReportDirectory
  import opened StandardsPlan
  import opened StandardsRun

  /** The report an invocation leaves, if it succeeds. */
  ghost function Worker(d: Digests): Job -> Option<Report> {
    (job: Job) => if JobAccepted(d, job) then Some(ReportOf(d, job)) else None
  }

  ghost function Merged(d: Digests, events: seq<Event<Job>>): seq<Report> {
    Listing(After(Worker(d), events))
  }

  /** The merger, run after these events, issues a certificate. */
  ghost predicate Issued(d: Digests, plan: Plan, events: seq<Event<Job>>) {
    Legible(After(Worker(d), events)) && MergeAccepted(d, plan, Merged(d, events))
  }

  /** No worker ran on a different plan with the same digest. */
  ghost predicate PlanDigestUnique(d: Digests, plan: Plan, events: seq<Event<Job>>) {
    forall i :: 0 <= i < |events| && events[i].WorkerRan? && d.plan(events[i].job.plan) == d.plan(plan)
      ==> events[i].job.plan == plan
  }

  // ----- what a worker's report holds

  lemma {:induction false} TailIncreasing(cs: seq<Case>)
    requires IdsIncreasing(cs) && cs != []
    ensures IdsIncreasing(cs[1..])
    ensures forall c :: c in cs[1..] ==> Lt(cs[0].caseId, c.caseId)
  {
    var rest := cs[1..];
    forall i, j | 0 <= i < j < |rest| ensures Lt(rest[i].caseId, rest[j].caseId) {
      assert Lt(cs[i+1].caseId, cs[j+1].caseId);
    }
    forall c | c in rest ensures Lt(cs[0].caseId, c.caseId) {
      var i :| 0 <= i < |rest| && rest[i] == c;
      assert Lt(cs[0].caseId, cs[i+1].caseId);
    }
  }

  lemma {:induction false} ConsIncreasing(c: Case, cs: seq<Case>)
    requires IdsIncreasing(cs) && forall x :: x in cs ==> Lt(c.caseId, x.caseId)
    ensures IdsIncreasing([c] + cs)
  {
    var all := [c] + cs;
    forall i, j | 0 <= i < j < |all| ensures Lt(all[i].caseId, all[j].caseId) {
      assert all[j] == cs[j-1] && cs[j-1] in cs;
      if i > 0 { assert all[i] == cs[i-1]; }
    }
  }

  lemma {:induction false} AssignedIncreasing(cs: seq<Case>, partition: int)
    requires IdsIncreasing(cs)
    ensures IdsIncreasing(Assigned(cs, partition))
  {
    if cs != [] {
      TailIncreasing(cs);
      AssignedIncreasing(cs[1..], partition);
      var tail := Assigned(cs[1..], partition);
      if cs[0].partition == partition {
        ConsIncreasing(cs[0], tail);
      } else {
        assert Assigned(cs, partition) == tail;
      }
    }
  }

  lemma {:induction false} IdsDiffer(cs: seq<Case>, i: nat, j: nat)
    requires IdsIncreasing(cs) && i < |cs| && j < |cs|
    ensures i != j ==> cs[i].caseId != cs[j].caseId
  {
    assert i < j ==> Lt(cs[i].caseId, cs[j].caseId);
    assert j < i ==> Lt(cs[j].caseId, cs[i].caseId);
  }

  lemma {:induction false} UniqueIds(cs: seq<Case>, a: Case, b: Case)
    requires IdsIncreasing(cs) && a in cs && b in cs && a.caseId == b.caseId
    ensures a == b
  {
    var i :| 0 <= i < |cs| && cs[i] == a;
    var j :| 0 <= j < |cs| && cs[j] == b;
    IdsDiffer(cs, i, j);
  }

  /** The final sort changes nothing: assigned cases were already in identifier order. */
  lemma {:induction false} SortedRowsUnchanged(cs: seq<Case>, rows: seq<Row>)
    requires IdsIncreasing(cs) && |rows| == |cs|
    requires forall i :: 0 <= i < |cs| ==> rows[i].caseId == cs[i].caseId
    ensures SortRows(rows) == rows
  {
    forall i, j | 0 <= i < j < |rows| ensures RowLe(rows[i], rows[j]) && !RowLe(rows[j], rows[i]) {
      assert Lt(cs[i].caseId, cs[j].caseId);
      NotBelow(cs[i].caseId, cs[j].caseId);
    }
    RowOrder();
    SortedStays(rows, RowLe);
  }

  lemma {:induction false} NotBelow(a: string, b: string)
    requires Lt(a, b)
    ensures !Le(b, a)
  {
    if Le(b, a) { LeAntisymmetric(a, b); }
  }

  /** A successful worker reports exactly its assigned cases, in order, each passed. */
  lemma {:induction false} WorkerRows(d: Digests, job: Job)
    requires JobAccepted(d, job)
    ensures |ReportOf(d, job).observations| == |Assigned(job.plan.cases, job.partition)|
    ensures IdsIncreasing(Assigned(job.plan.cases, job.partition))
    ensures forall i :: 0 <= i < |ReportOf(d, job).observations| ==>
      && Passed(Assigned(job.plan.cases, job.partition)[i], ReportOf(d, job).observations[i])
      && CaseRunner(job)(Assigned(job.plan.cases, job.partition)[i]) == Some(ReportOf(d, job).observations[i])
  {
    var cs := Assigned(job.plan.cases, job.partition);
    var rows := RunCases(job, cs).value;
    AssignedIncreasing(job.plan.cases, job.partition);
    RunCasesPass(job, cs, rows);
    SortedRowsUnchanged(cs, rows);
  }

  // ----- safety: what a certificate means

  lemma {:induction false} MergedReportOrigin(d: Digests, plan: Plan, events: seq<Event<Job>>, k: nat) returns (e: nat)
    requires MergeAccepted(d, plan, Merged(d, events)) && PlanDigestUnique(d, plan, events)
    requires k < |SortReports(Merged(d, events))|
    ensures e < |events| && events[e].WorkerRan? && JobAccepted(d, events[e].job)
    ensures events[e].job.plan == plan && events[e].job.partition == k
    ensures SortReports(Merged(d, events))[k] == ReportOf(d, events[e].job)
  {
    var reports, sorted := Merged(d, events), SortReports(Merged(d, events));
    SameMembers(sorted, reports);
    var r := sorted[k];
    assert r in reports;
    e := ListedReportOrigin(Worker(d), events, r);
    assert Acceptor(d.plan(plan), Expected(plan.cases))(k, r);
  }

  /** Row `j` of merged report `k` is about the given case. */
  ghost predicate Observes(sorted: seq<Report>, k: nat, j: nat, id: string) {
    k < |sorted| && j < |sorted[k].observations| && sorted[k].observations[j].caseId == id
  }

  /** Event `e` was a successful run, on this plan and by the worker of the case's own partition, that
      ran the case on the descriptor its digest names and reported this row. */
  ghost predicate RanBy(d: Digests, plan: Plan, events: seq<Event<Job>>, e: nat, c: Case, row: Row) {
    && e < |events| && events[e].WorkerRan? && JobAccepted(d, events[e].job)
    && var job := events[e].job;
       && job.plan == plan && job.partition == c.partition
       && c.caseId in job.catalog && d.descriptor(job.catalog[c.caseId]) == c.inputSha256
       && RunCase(job.suite, job.maxBytes, job.responses, c, job.catalog[c.caseId]) == Some(row)
  }

  lemma {:induction false} CaseRanBy(d: Digests, plan: Plan, events: seq<Event<Job>>, e: nat, j: nat)
    requires e < |events| && events[e].WorkerRan? && JobAccepted(d, events[e].job) && events[e].job.plan == plan
    requires j < |Assigned(plan.cases, events[e].job.partition)|
    ensures j < |ReportOf(d, events[e].job).observations|
    ensures var job := events[e].job;
      RanBy(d, plan, events, e, Assigned(plan.cases, job.partition)[j], ReportOf(d, job).observations[j])
  {
    var job := events[e].job;
    var cs := Assigned(plan.cases, job.partition);
    WorkerRows(d, job);
    assert cs[j] in cs;
    PlannedCaseValid(d, job, cs[j]);
    assert CaseRunner(job)(cs[j]) == Some(ReportOf(d, job).observations[j]);
  }

  /** Whatever the workers did, a certificate means: each planned case was observed exactly once, by a
      successful worker of its own partition that ran it on the planned descriptor, and passed there. */
  lemma {:induction false} CertificateMeansEveryCasePassed(d: Digests, plan: Plan, events: seq<Event<Job>>, c: Case)
    returns (e: nat, k: nat, j: nat)
    requires Issued(d, plan, events) && PlanDigestUnique(d, plan, events)
    requires c in plan.cases
    ensures Observes(SortReports(Merged(d, events)), k, j, c.caseId) && k == c.partition
    ensures Passed(c, SortReports(Merged(d, events))[k].observations[j])
    ensures RanBy(d, plan, events, e, c, SortReports(Merged(d, events))[k].observations[j])
    ensures forall m, n :: Observes(SortReports(Merged(d, events)), m, n, c.caseId) ==> m == k && n == j
  {
    var sorted, expected := SortReports(Merged(d, events)), Expected(plan.cases);
    assert c.caseId in expected;
    k := expected[c.caseId].partition;
    e := MergedReportOrigin(d, plan, events, k);
    UniqueIds(plan.cases, c, expected[c.caseId]);
    WorkerRows(d, events[e].job);
    var cs := Assigned(plan.cases, k);
    assert c in cs;
    j :| 0 <= j < |cs| && cs[j] == c;
    CaseRanBy(d, plan, events, e, j);
    forall m, n | Observes(sorted, m, n, c.caseId) ensures m == k && n == j {
      OnlyObservation(d, plan, events, c, m, n, cs, j);
    }
  }

  lemma {:induction false} OnlyObservation(
      d: Digests, plan: Plan, events: seq<Event<Job>>, c: Case, m: nat, n: nat, cs: seq<Case>, j: nat)
    requires MergeAccepted(d, plan, Merged(d, events)) && PlanDigestUnique(d, plan, events)
    requires Observes(SortReports(Merged(d, events)), m, n, c.caseId)
    requires c in plan.cases && cs == Assigned(plan.cases, c.partition) && j < |cs| && cs[j] == c
    ensures m == c.partition && n == j
  {
    var other := MergedReportOrigin(d, plan, events, m);
    WorkerRows(d, events[other].job);
    var b := Assigned(plan.cases, m)[n];
    assert b in Assigned(plan.cases, m);
    UniqueIds(plan.cases, c, b);
    IdsDiffer(cs, n, j);
  }

  // ----- no false rejection

  /** One report per successful worker invocation, all on the same plan. */
  ghost predicate ProducedBy(d: Digests, plan: Plan, jobs: seq<Job>, reports: seq<Report>) {
    && |reports| == |jobs|
    && forall i :: 0 <= i < |jobs| ==>
      JobAccepted(d, jobs[i]) && jobs[i].plan == plan && reports[i] == ReportOf(d, jobs[i])
  }

  function PartitionOf(r: Report): int { r.partition }

  /** One worker for every partition, under non-empty and different names. */
  predicate FullTeam(reports: seq<Report>, count: int) {
    && |reports| == count
    && Distinct(Map(PartitionOf, reports))
    && Distinct(Map(WorkerOf, reports))
    && forall i :: 0 <= i < |reports| ==> reports[i].workerId != ""
  }

  lemma {:induction false} ExpectedIsPlan(cs: seq<Case>)
    requires IdsIncreasing(cs)
    ensures forall c :: c in cs ==> Expected(cs)[c.caseId] == c
  {
    forall c | c in cs ensures Expected(cs)[c.caseId] == c {
      UniqueIds(cs, c, Expected(cs)[c.caseId]);
    }
  }

  /** The identifiers a worker reports are the merger's sorted assignment. */
  lemma {:induction false} WorkerIdsExact(d: Digests, job: Job)
    requires JobAccepted(d, job)
    ensures Map(RowId, ReportOf(d, job).observations) == SortedSet(AssignedIds(Expected(job.plan.cases), job.partition))
  {
    WorkerRows(d, job);
    var cs, rows := Assigned(job.plan.cases, job.partition), ReportOf(d, job).observations;
    IdsMatchCases(cs, rows, Map(RowId, rows));
    MembersMatch(job.plan.cases, job.partition, Map(RowId, rows));
    ListIsSortedSet(Map(RowId, rows), AssignedIds(Expected(job.plan.cases), job.partition));
  }

  lemma {:induction false} MembersMatch(all: seq<Case>, partition: int, ids: seq<string>)
    requires IdsIncreasing(all) && |ids| == |Assigned(all, partition)|
    requires forall i :: 0 <= i < |ids| ==> ids[i] == Assigned(all, partition)[i].caseId
    ensures forall id :: id in ids <==> id in AssignedIds(Expected(all), partition)
  {
    ExpectedIsPlan(all);
    var cs, expected := Assigned(all, partition), Expected(all);
    forall id | id in ids ensures id in AssignedIds(expected, partition) {
      var i :| 0 <= i < |ids| && ids[i] == id;
      assert cs[i] in cs;
    }
    forall id | id in AssignedIds(expected, partition) ensures id in ids {
      assert expected[id] in cs;
      var i :| 0 <= i < |cs| && cs[i] == expected[id];
      assert ids[i] == id;
    }
  }

  lemma {:induction false} ListIsSortedSet(ids: seq<string>, members: set<string>)
    requires StrictlyIncreasing(ids) && forall id :: id in ids <==> id in members
    ensures ids == SortedSet(members)
  {
    SortedSetIncreasing(members);
    SameSize(ids, members);
    StrictlyIncreasingUnique(ids, SortedSet(members));
  }

  lemma {:induction false} IdsMatchCases(cs: seq<Case>, rows: seq<Row>, ids: seq<string>)
    requires ids == Map(RowId, rows) && |rows| == |cs| && IdsIncreasing(cs)
    requires forall i :: 0 <= i < |cs| ==> Passed(cs[i], rows[i])
    ensures forall i :: 0 <= i < |cs| ==> ids[i] == cs[i].caseId
    ensures StrictlyIncreasing(ids)
  {
    forall i | 0 <= i < |cs| ensures ids[i] == cs[i].caseId {
      assert Passed(cs[i], rows[i]);
      assert ids[i] == RowId(rows[i]);
    }
    forall i, j | 0 <= i < j < |ids| ensures Lt(ids[i], ids[j]) {
      assert Lt(cs[i].caseId, cs[j].caseId);
    }
  }

  lemma {:induction false} SameSize(ids: seq<string>, members: set<string>)
    requires StrictlyIncreasing(ids) && forall id :: id in ids <==> id in members
    ensures |ids| == |members|
  {
    assert forall i, j :: 0 <= i < j < |ids| ==> Lt(ids[i], ids[j]);
    assert Distinct(ids);
    DistinctBySize(ids);
    assert (set id | id in ids) == members;
  }

  lemma {:induction false} WorkerReportAccepted(d: Digests, job: Job)
    requires JobAccepted(d, job) && job.workerId != ""
    ensures ReportAccepted(d.plan(job.plan), Expected(job.plan.cases), job.partition, ReportOf(d, job))
  {
    WorkerIdsExact(d, job);
    WorkerRows(d, job);
    ExpectedIsPlan(job.plan.cases);
    var cs, rows := Assigned(job.plan.cases, job.partition), ReportOf(d, job).observations;
    forall i | 0 <= i < |rows|
      ensures rows[i].caseId in Expected(job.plan.cases)
      ensures RowAccepted(Expected(job.plan.cases)[rows[i].caseId], job.partition, rows[i])
    {
      assert Passed(cs[i], rows[i]) && cs[i] in cs;
    }
  }

  /** The merger accepts a set of successful worker reports exactly when there is one worker for
      every partition and the names are non-empty and different: no other ground for refusal is
      left, whatever the drivers answered, empty partitions included. */
  lemma {:induction false} WorkerReportsAcceptedIffFullTeam(
      d: Digests, plan: Plan, jobs: seq<Job>, reports: seq<Report>)
    requires ProducedBy(d, plan, jobs, reports) && jobs != []
    ensures MergeAccepted(d, plan, reports) <==> FullTeam(reports, plan.partitionCount)
  {
    var sorted := SortReports(reports);
    MapPermutation(PartitionOf, sorted, reports);
    MapPermutation(WorkerOf, sorted, reports);
    if FullTeam(reports, plan.partitionCount) {
      DistinctPermutation(Map(PartitionOf, reports), Map(PartitionOf, sorted));
      DistinctPermutation(Map(WorkerOf, reports), Map(WorkerOf, sorted));
      FullTeamAccepted(d, plan, jobs, reports, sorted);
    }
    if MergeAccepted(d, plan, reports) {
      AcceptedIsFullTeam(d, plan, reports, sorted);
    }
  }

  lemma {:induction false} ProducedReportAccepted(
      d: Digests, plan: Plan, jobs: seq<Job>, reports: seq<Report>, r: Report)
    requires ProducedBy(d, plan, jobs, reports) && r in reports && r.workerId != ""
    ensures 0 <= r.partition < plan.partitionCount
    ensures Acceptor(d.plan(plan), Expected(plan.cases))(r.partition, r)
  {
    var j :| 0 <= j < |reports| && reports[j] == r;
    WorkerReportAccepted(d, jobs[j]);
  }

  lemma {:induction false} FullTeamAccepted(
      d: Digests, plan: Plan, jobs: seq<Job>, reports: seq<Report>, sorted: seq<Report>)
    requires ProducedBy(d, plan, jobs, reports) && jobs != [] && FullTeam(reports, plan.partitionCount)
    requires sorted == SortReports(reports) && Distinct(Map(PartitionOf, sorted)) && Distinct(Map(WorkerOf, sorted))
    ensures MergeAccepted(d, plan, reports)
  {
    var accept := Acceptor(d.plan(plan), Expected(plan.cases));
    SameMembers(sorted, reports);
    forall i | 0 <= i < |sorted|
      ensures 0 <= sorted[i].partition < |sorted| && accept(sorted[i].partition, sorted[i])
    {
      assert sorted[i] in reports;
      ProducedReportAccepted(d, plan, jobs, reports, sorted[i]);
    }
    assert forall i, j :: 0 <= i < j < |sorted| ==> ReportLe(sorted[i], sorted[j]);
    PartitionsAreIndices(PartitionOf, sorted);
    assert AllAccepted(accept, sorted);
    assert JobAccepted(d, jobs[0]);
    forall id | id in Expected(plan.cases) ensures 0 <= Expected(plan.cases)[id].partition < |sorted| {
      PlannedCaseValid(d, jobs[0], Expected(plan.cases)[id]);
    }
  }

  lemma {:induction false} PlannedCaseValid(d: Digests, job: Job, c: Case)
    requires JobAccepted(d, job) && c in job.plan.cases
    ensures 0 <= c.partition < job.plan.partitionCount
    ensures c.caseId in job.catalog && d.descriptor(job.catalog[c.caseId]) == c.inputSha256
  {
    var i :| 0 <= i < |job.plan.cases| && job.plan.cases[i] == c;
    assert CaseValid(d, job.catalog, job.plan.partitionCount, c);
  }

  lemma {:induction false} AcceptedIsFullTeam(d: Digests, plan: Plan, reports: seq<Report>, sorted: seq<Report>)
    requires MergeAccepted(d, plan, reports) && sorted == SortReports(reports)
    requires multiset(Map(PartitionOf, sorted)) == multiset(Map(PartitionOf, reports))
    requires multiset(Map(WorkerOf, sorted)) == multiset(Map(WorkerOf, reports))
    ensures FullTeam(reports, plan.partitionCount)
  {
    AcceptedHeaders(d, plan, reports, sorted);
    var s := Map(PartitionOf, sorted);
    assert forall i :: 0 <= i < |s| ==> s[i] == PartitionOf(sorted[i]) == i;
    DistinctPermutation(s, Map(PartitionOf, reports));
    DistinctPermutation(Map(WorkerOf, sorted), Map(WorkerOf, reports));
    NamedWorkers(reports, sorted);
  }

  lemma {:induction false} AcceptedHeaders(d: Digests, plan: Plan, reports: seq<Report>, sorted: seq<Report>)
    requires MergeAccepted(d, plan, reports) && sorted == SortReports(reports)
    ensures |sorted| == |reports| == plan.partitionCount && Distinct(Map(WorkerOf, sorted))
    ensures forall i :: 0 <= i < |sorted| ==> sorted[i].partition == i && sorted[i].workerId != ""
  {
    forall i | 0 <= i < |sorted| ensures sorted[i].partition == i && sorted[i].workerId != "" {
      assert Acceptor(d.plan(plan), Expected(plan.cases))(i, sorted[i]);
    }
  }

  lemma {:induction false} NamedWorkers(reports: seq<Report>, sorted: seq<Report>)
    requires multiset(sorted) == multiset(reports)
    requires forall i :: 0 <= i < |sorted| ==> sorted[i].workerId != "" && 0 <= sorted[i].partition < |reports|
    ensures forall i :: 0 <= i < |reports| ==> reports[i].workerId != "" && 0 <= reports[i].partition < |reports|
  {
    SameMembers(sorted, reports);
    forall i | 0 <= i < |reports| ensures reports[i].workerId != "" && 0 <= reports[i].partition < |reports| {
      assert reports[i] in sorted;
    }
  }

  /** A planner's certificate counts every definition. */
  lemma {:induction false} CertificateCountsDefinitions(d: Digests, suite: Suite, xs: seq<Definition>, count: int)
    requires 1 <= count <= 65536 && DefinitionsValid(xs)
    ensures CertificateOf(d, PlanOf(d, suite, xs, count).plan).caseCount == |xs|
  {
    var cs := PlanOf(d, suite, xs, count).plan.cases;
    SortedIdsIncrease(d, count, xs);
    SameMembers(cs, CasesOf(d, count, xs));
    ExpectedSize(cs);
  }

  lemma {:induction false} ExpectedSize(cs: seq<Case>)
    requires IdsIncreasing(cs)
    ensures |Expected(cs)| == |cs|
  {
    if cs != [] {
      var init, c := cs[..|cs|-1], cs[|cs|-1];
      assert forall i :: 0 <= i < |init| ==> init[i] == cs[i];
      ExpectedSize(init);
      LastIdIsNew(cs);
      assert Expected(cs).Keys == Expected(init).Keys + {c.caseId};
    }
  }

  lemma {:induction false} LastIdIsNew(cs: seq<Case>)
    requires IdsIncreasing(cs) && cs != []
    ensures cs[|cs|-1].caseId !in Expected(cs[..|cs|-1])
  {
    var init := cs[..|cs|-1];
    forall id | id in Expected(init) ensures id != cs[|cs|-1].caseId {
      var i :| 0 <= i < |init| && init[i] == Expected(init)[id];
      IdsDiffer(cs, i, |cs| - 1);
    }
  }

  // ----- what the merger alone does not establish

  const NORMATIVE: Case := Case("a", "f", "", "hermit", SUCCESS, Some("digest"), None, 0)
  const UNCHECKED: Row := Row("a", "f", 0, SUCCESS, SUCCESS, None, None, None, None, true, 0)

  /** Without a worker behind the report, the merger certifies a success that has no result
      digest at all although the plan names one. */
  lemma {:induction false} MergerAloneMissesTheDigest(d: Digests, plan: Plan)
    requires plan == Plan(1, "", 1, [NORMATIVE])
    ensures MergeAccepted(d, plan, [Report(1, d.plan(plan), 0, "w", [UNCHECKED], true)])
    ensures !Passed(NORMATIVE, UNCHECKED)
  {
    var report := Report(1, d.plan(plan), 0, "w", [UNCHECKED], true);
    var expected := Expected(plan.cases);
    assert plan.cases[..0] == [];
    assert expected == map["a" := NORMATIVE];
    SortedStays([report], ReportLe);
    assert SortReports([report]) == [report];
    assert AssignedIds(expected, 0) == {"a"};
    var ids := SortedSet({"a"});
    assert |ids| == 1 && "a" in ids;
    assert Map(RowId, [UNCHECKED])[0] == RowId(UNCHECKED);
    assert Map(RowId, [UNCHECKED]) == ids;
  }

  /** The planner accepts a suite without cases, a worker reports on it, and the merger certifies it,
      although the phase document asks for every family and every oracle. */
  lemma {:induction false} EmptyPlanIsCertified(d: Digests, suite: Suite, job: Job)
    requires job.plan == PlanOf(d, suite, [], 1).plan && job.suite == suite && job.partition == 0
    requires OptionsValid(job) && job.workerId != ""
    ensures DefinitionsValid([]) && JobAccepted(d, job)
    ensures MergeAccepted(d, job.plan, [ReportOf(d, job)]) && CertificateOf(d, job.plan).caseCount == 0
  {
    SameMembers(job.plan.cases, CasesOf(d, 1, []));
    assert job.plan.cases == [] && Assigned([], 0) == [];
    WorkerReportsAcceptedIffFullTeam(d, job.plan, [job], [ReportOf(d, job)]);
  }

  function FamilyOf(c: Case): string { c.family }
  function OracleOf(c: Case): string { c.oracle }

  /** So a certificate covers the declared families and oracles exactly when the plan's cases do. */
  lemma {:induction false} CertificateCoversIffPlanDoes(
      d: Digests, plan: Plan, families: set<string>, oracles: set<string>)
    requires IdsIncreasing(plan.cases)
    ensures
      families <= CertificateOf(d, plan).casesByFamily.Keys && oracles <= Members(CertificateOf(d, plan).oracleEngines)
      <==> families <= Members(Map(FamilyOf, plan.cases)) && oracles <= Members(Map(OracleOf, plan.cases))
  {
    CertifiedFamilies(d, plan);
    CertifiedOracles(d, plan);
  }

  lemma {:induction false} CertifiedFamilies(d: Digests, plan: Plan)
    requires IdsIncreasing(plan.cases)
    ensures CertificateOf(d, plan).casesByFamily.Keys == Members(Map(FamilyOf, plan.cases))
  {
    var expected := Expected(plan.cases);
    var families := set id | id in expected :: expected[id].family;
    forall x
      ensures x in families <==> x in Members(Map(FamilyOf, plan.cases))
    {
      ExpectedField(plan.cases, FamilyOf, x);
    }
    assert CertificateOf(d, plan).casesByFamily.Keys == families;
  }

  lemma {:induction false} CertifiedOracles(d: Digests, plan: Plan)
    requires IdsIncreasing(plan.cases)
    ensures Members(CertificateOf(d, plan).oracleEngines) == Members(Map(OracleOf, plan.cases))
  {
    var expected := Expected(plan.cases);
    var oracles := set id | id in expected :: expected[id].oracle;
    forall x
      ensures x in oracles <==> x in Members(Map(OracleOf, plan.cases))
    {
      ExpectedField(plan.cases, OracleOf, x);
    }
    assert Members(SortedSet(oracles)) == oracles;
  }

  /** A value occurs in a field of the expected cases exactly when it occurs in the plan. */
  lemma {:induction false} ExpectedField(cs: seq<Case>, f: Case -> string, x: string)
    requires IdsIncreasing(cs)
    ensures (exists id :: id in Expected(cs) && f(Expected(cs)[id]) == x) <==> x in Map(f, cs)
  {
    if id :| id in Expected(cs) && f(Expected(cs)[id]) == x {
      var i :| 0 <= i < |cs| && cs[i] == Expected(cs)[id];
      assert Map(f, cs)[i] == x;
    }
    if x in Map(f, cs) {
      var i :| 0 <= i < |cs| && Map(f, cs)[i] == x;
      assert cs[i] in cs;
      ExpectedIsPlan(cs);
      assert f(Expected(cs)[cs[i].caseId]) == x;
    }
  }
}
