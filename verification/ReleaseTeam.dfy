/** Phase 40.13.24: the merger never refuses a full team of successful workers. */
module ReleaseTeam {
  import opened Options
  import opened Orders
  import opened Sorting
  import opened Sequences
  import opened Loops
  import opened Partitions
  import opened ReleasePlan
  import opened ReleaseRun
  import opened ReleaseProtocol

  /** One report per successful worker invocation, all on the same plan. */
  ghost predicate ProducedBy(d: Digests, plan: Plan, jobs: seq<Job>, reports: seq<Report>) {
    && |reports| == |jobs|
    && forall i :: 0 <= i < |jobs| ==>
      JobAccepted(d, jobs[i]) && jobs[i].plan == plan && reports[i] == ReportOf(d, jobs[i])
  }

  /** One worker for every partition, under different names. */
  predicate FullTeam(reports: seq<Report>, count: int) {
    |reports| == count && Distinct(Map(PartitionOf, reports)) && Distinct(Map(WorkerOf, reports))
  }

  // ----- the observations of one report

  function ObservationId(o: Observation): string { o.scenarioId }

  lemma {:induction false} AssignedDistinct(xs: seq<Scenario>, partition: int)
    requires Distinct(Map(ScenarioId, xs))
    ensures Distinct(Map(ScenarioId, Assigned(xs, partition)))
  {
    if xs != [] {
      var ids, tail := Map(ScenarioId, xs), Assigned(xs[1..], partition);
      assert Map(ScenarioId, xs[1..]) == ids[1..];
      AssignedDistinct(xs[1..], partition);
      if xs[0].partition == partition {
        assert ids[0] !in ids[1..];
        HeadIsNew(xs, partition);
        DistinctConcat([ids[0]], Map(ScenarioId, tail));
        assert Map(ScenarioId, [xs[0]] + tail) == [ids[0]] + Map(ScenarioId, tail);
      } else {
        assert Assigned(xs, partition) == tail;
      }
    }
  }

  lemma {:induction false} HeadIsNew(xs: seq<Scenario>, partition: int)
    requires Distinct(Map(ScenarioId, xs)) && xs != []
    ensures xs[0].scenarioId !in Map(ScenarioId, Assigned(xs[1..], partition))
  {
    var ids, tail := Map(ScenarioId, xs), Assigned(xs[1..], partition);
    forall k | 0 <= k < |tail| ensures Map(ScenarioId, tail)[k] != xs[0].scenarioId {
      assert tail[k] in tail;
      var i :| 0 <= i < |xs[1..]| && xs[1..][i] == tail[k];
      assert ids[i+1] == tail[k].scenarioId && ids[0] != ids[i+1];
    }
  }

  lemma {:induction false} ReportIds(d: Digests, job: Job)
    requires JobAccepted(d, job)
    ensures multiset(Map(ObservationId, ReportOf(d, job).observations))
      == multiset(Map(ScenarioId, Assigned(job.plan.scenarios, job.partition)))
  {
    var scenarios, found := Assigned(job.plan.scenarios, job.partition), RunAssigned(d, job).value;
    MapPermutation(ObservationId, SortObservations(found), found);
    var a, b := Map(ObservationId, found), Map(ScenarioId, scenarios);
    forall i | 0 <= i < |scenarios| ensures a[i] == b[i] {
      assert Runner(d, job)(scenarios[i]) == Some(found[i]);
    }
    assert a == b;
  }

  lemma {:induction false} RowIds(r: Report)
    ensures Map(RowId, RowsOf(r)) == Map(ObservationId, r.observations)
  {
    var rows := RowsOf(r);
    forall i | 0 <= i < |rows| ensures Map(RowId, rows)[i] == Map(ObservationId, r.observations)[i] {
      assert rows[i] == Row(r.partition, r.observations[i]);
    }
  }

  lemma {:induction false} ReportRowsDistinct(d: Digests, job: Job)
    requires JobAccepted(d, job) && Distinct(Map(ScenarioId, job.plan.scenarios))
    ensures Distinct(Map(RowId, RowsOf(ReportOf(d, job))))
  {
    AssignedDistinct(job.plan.scenarios, job.partition);
    ReportIds(d, job);
    RowIds(ReportOf(d, job));
    DistinctPermutation(Map(ScenarioId, Assigned(job.plan.scenarios, job.partition)),
                        Map(ObservationId, ReportOf(d, job).observations));
  }

  // ----- all rows together

  lemma {:induction false} RowsPass(d: Digests, plan: Plan, jobs: seq<Job>, reports: seq<Report>)
    requires IdsIncreasing(plan.scenarios) && ProducedBy(d, plan, jobs, reports)
    ensures Each(RowTest(Expected(plan.scenarios)), Rows(reports))
  {
    var rows, test := Rows(reports), RowTest(Expected(plan.scenarios));
    forall k | 0 <= k < |rows| ensures test(rows[k]) {
      RowPasses(d, plan, jobs, reports, k);
    }
  }

  lemma {:induction false} RowPasses(d: Digests, plan: Plan, jobs: seq<Job>, reports: seq<Report>, k: nat)
    requires IdsIncreasing(plan.scenarios) && ProducedBy(d, plan, jobs, reports) && k < |Rows(reports)|
    ensures RowTest(Expected(plan.scenarios))(Rows(reports)[k])
  {
    var m, n := RowOrigin(reports, k);
    var s := ObservationOrigin(d, jobs[m], n);
    UniqueIds(plan.scenarios, s, Expected(plan.scenarios)[s.scenarioId]);
  }

  /** Rows of different reports are about different scenarios: their partitions differ. */
  lemma {:induction false} RowsApart(expected: map<string, Scenario>, reports: seq<Report>, i: nat)
    requires i < |reports| && Distinct(Map(PartitionOf, reports))
    requires Each(RowTest(expected), Rows(reports[..i]) + RowsOf(reports[i]))
    ensures forall id :: id in Map(RowId, Rows(reports[..i])) ==> id !in Map(RowId, RowsOf(reports[i]))
  {
    var a, b := Rows(reports[..i]), RowsOf(reports[i]);
    forall j, k | 0 <= j < |a| && 0 <= k < |b| ensures RowId(a[j]) != RowId(b[k]) {
      RowPairApart(expected, reports, i, j, k);
    }
    assert forall j :: 0 <= j < |a| ==> Map(RowId, a)[j] == RowId(a[j]);
    assert forall k :: 0 <= k < |b| ==> Map(RowId, b)[k] == RowId(b[k]);
  }

  lemma {:induction false} RowPairApart(expected: map<string, Scenario>, reports: seq<Report>, i: nat, j: nat, k: nat)
    requires i < |reports| && Distinct(Map(PartitionOf, reports))
    requires Each(RowTest(expected), Rows(reports[..i]) + RowsOf(reports[i]))
    requires j < |Rows(reports[..i])| && k < |RowsOf(reports[i])|
    ensures RowId(Rows(reports[..i])[j]) != RowId(RowsOf(reports[i])[k])
  {
    var a, b := Rows(reports[..i]), RowsOf(reports[i]);
    var all := a + b;
    assert RowTest(expected)(all[j]) && RowTest(expected)(all[|a| + k]);
    assert all[j] == a[j] && all[|a| + k] == b[k];
    var m, n := RowOrigin(reports[..i], j);
    assert Map(PartitionOf, reports)[m] != Map(PartitionOf, reports)[i];
  }

  lemma {:induction false} AllRowsDistinct(expected: map<string, Scenario>, reports: seq<Report>, i: nat)
    requires Distinct(Map(PartitionOf, reports)) && i <= |reports|
    requires forall k :: 0 <= k < |reports| ==> Each(RowTest(expected), Rows(reports[..k]) + RowsOf(reports[k]))
    requires forall k :: 0 <= k < |reports| ==> Distinct(Map(RowId, RowsOf(reports[k])))
    ensures Distinct(Map(RowId, Rows(reports[..i])))
    decreases i
  {
    if i == 0 {
      assert reports[..0] == [];
    } else {
      AllRowsDistinct(expected, reports, i - 1);
      AppendDistinct(expected, reports, i - 1);
    }
  }

  lemma {:induction false} PrefixPasses(d: Digests, plan: Plan, jobs: seq<Job>, reports: seq<Report>, i: nat)
    requires IdsIncreasing(plan.scenarios) && ProducedBy(d, plan, jobs, reports) && i < |reports|
    ensures Each(RowTest(Expected(plan.scenarios)), Rows(reports[..i]) + RowsOf(reports[i]))
  {
    FlatStep(RowsOf, reports, i);
    RowsPass(d, plan, jobs[..i+1], reports[..i+1]);
  }

  lemma {:induction false} AppendDistinct(expected: map<string, Scenario>, reports: seq<Report>, i: nat)
    requires i < |reports| && Distinct(Map(PartitionOf, reports))
    requires Each(RowTest(expected), Rows(reports[..i]) + RowsOf(reports[i]))
    requires Distinct(Map(RowId, Rows(reports[..i]))) && Distinct(Map(RowId, RowsOf(reports[i])))
    ensures Distinct(Map(RowId, Rows(reports[..i+1])))
  {
    RowsApart(expected, reports, i);
    FlatStep(RowsOf, reports, i);
    DistinctConcat(Map(RowId, Rows(reports[..i])), Map(RowId, RowsOf(reports[i])));
    MapConcat(Rows(reports[..i]), RowsOf(reports[i]));
  }

  lemma {:induction false} MapConcat(a: seq<Row>, b: seq<Row>)
    ensures Map(RowId, a + b) == Map(RowId, a) + Map(RowId, b)
  {
  }

  // ----- every partition and every scenario is there

  lemma {:induction false} PartitionsDense(d: Digests, plan: Plan, jobs: seq<Job>, reports: seq<Report>)
    requires ProducedBy(d, plan, jobs, reports) && FullTeam(reports, plan.partitionCount)
    ensures Members(Map(PartitionOf, reports)) == Range(plan.partitionCount)
  {
    var partitions := Map(PartitionOf, reports);
    forall p | p in partitions ensures 0 <= p < plan.partitionCount {
      var i :| 0 <= i < |partitions| && partitions[i] == p;
      assert JobAccepted(d, jobs[i]);
    }
    DistinctBySize(partitions);
    RangeSize(plan.partitionCount);
    SubsetOfSameSize(Members(partitions), Range(plan.partitionCount));
  }

  lemma {:induction false} ScenarioReported(d: Digests, plan: Plan, jobs: seq<Job>, reports: seq<Report>, s: Scenario)
    requires ProducedBy(d, plan, jobs, reports) && s in plan.scenarios
    requires s.partition in Members(Map(PartitionOf, reports))
    ensures s.scenarioId in Map(RowId, Rows(reports))
  {
    var partitions := Map(PartitionOf, reports);
    var m :| 0 <= m < |partitions| && partitions[m] == s.partition;
    assert JobAccepted(d, jobs[m]);
    ReportIds(d, jobs[m]);
    var scenarios, ids := Assigned(plan.scenarios, s.partition), Map(ObservationId, reports[m].observations);
    var i :| 0 <= i < |scenarios| && scenarios[i] == s;
    assert Map(ScenarioId, scenarios)[i] == s.scenarioId;
    SameMembers(ids, Map(ScenarioId, scenarios));
    assert s.scenarioId in ids;
    var n :| 0 <= n < |ids| && ids[n] == s.scenarioId;
    assert RowsOf(reports[m])[n] == Row(reports[m].partition, reports[m].observations[n]);
    FlatListed(RowsOf, reports, m, n);
    IdListed(Rows(reports), Row(reports[m].partition, reports[m].observations[n]));
  }

  lemma {:induction false} IdListed(rows: seq<Row>, row: Row)
    requires row in rows
    ensures RowId(row) in Map(RowId, rows)
  {
    var k :| 0 <= k < |rows| && rows[k] == row;
    assert Map(RowId, rows)[k] == RowId(row);
  }

  lemma {:induction false} ScenariosCovered(
      d: Digests, q: Request, xs: seq<Definition>, jobs: seq<Job>, reports: seq<Report>)
    requires Plannable(q, xs) && ProducedBy(d, PlanOf(d, q, xs).plan, jobs, reports)
    requires Members(Map(PartitionOf, reports)) == Range(q.partitionCount)
    requires Each(RowTest(Expected(PlanOf(d, q, xs).plan.scenarios)), Rows(reports))
    ensures Members(Map(RowId, Rows(reports))) == Expected(PlanOf(d, q, xs).plan.scenarios).Keys
  {
    ObservedExpected(Expected(PlanOf(d, q, xs).plan.scenarios), Rows(reports));
    forall id | id in Expected(PlanOf(d, q, xs).plan.scenarios) ensures id in Map(RowId, Rows(reports)) {
      PlannedReported(d, q, xs, jobs, reports, id);
    }
  }

  lemma {:induction false} ObservedExpected(expected: map<string, Scenario>, rows: seq<Row>)
    requires Each(RowTest(expected), rows)
    ensures forall id :: id in Map(RowId, rows) ==> id in expected
  {
    var ids := Map(RowId, rows);
    forall id | id in ids ensures id in expected {
      var k :| 0 <= k < |ids| && ids[k] == id;
      assert RowTest(expected)(rows[k]);
    }
  }

  lemma {:induction false} PlannedReported(
      d: Digests, q: Request, xs: seq<Definition>, jobs: seq<Job>, reports: seq<Report>, id: string)
    requires Plannable(q, xs) && ProducedBy(d, PlanOf(d, q, xs).plan, jobs, reports)
    requires Members(Map(PartitionOf, reports)) == Range(q.partitionCount)
    requires id in Expected(PlanOf(d, q, xs).plan.scenarios)
    ensures id in Map(RowId, Rows(reports))
  {
    var s := Expected(PlanOf(d, q, xs).plan.scenarios)[id];
    PlannedScenarioValid(d, q, xs, s);
    ScenarioReported(d, PlanOf(d, q, xs).plan, jobs, reports, s);
  }

  // ----- no false rejection

  /** Successful reports on a built plan are certified exactly when there is one worker for every
      partition and no two share a name, whatever the drivers answered, empty partitions included. */
  lemma {:induction false} WorkerReportsAcceptedIffFullTeam(
      d: Digests, q: Request, xs: seq<Definition>, jobs: seq<Job>, reports: seq<Report>)
    requires Plannable(q, xs) && ProducedBy(d, PlanOf(d, q, xs).plan, jobs, reports)
    ensures MergeAccepted(d, PlanOf(d, q, xs).plan, reports) <==> FullTeam(reports, q.partitionCount)
  {
    if FullTeam(reports, q.partitionCount) {
      FullTeamPasses(d, q, xs, jobs, reports);
      BarrierSuffices(d, q, xs, reports);
    }
  }

  lemma {:induction false} FullTeamPasses(
      d: Digests, q: Request, xs: seq<Definition>, jobs: seq<Job>, reports: seq<Report>)
    requires Plannable(q, xs) && ProducedBy(d, PlanOf(d, q, xs).plan, jobs, reports)
    requires FullTeam(reports, q.partitionCount)
    ensures BarrierPassed(d, PlanOf(d, q, xs).plan, reports)
  {
    var plan := PlanOf(d, q, xs).plan;
    PlannedIdsIncrease(d, q, xs);
    TeamRowsDistinct(d, plan, jobs, reports);
    PartitionsDense(d, plan, jobs, reports);
    ScenariosCovered(d, q, xs, jobs, reports);
    ReportsPass(d, plan, jobs, reports);
  }

  lemma {:induction false} TeamRowsDistinct(d: Digests, plan: Plan, jobs: seq<Job>, reports: seq<Report>)
    requires IdsIncreasing(plan.scenarios) && ProducedBy(d, plan, jobs, reports) && Distinct(Map(PartitionOf, reports))
    ensures RowsDistinct(RowTest(Expected(plan.scenarios)), Rows(reports))
  {
    IdsDistinct(plan.scenarios);
    RowsPass(d, plan, jobs, reports);
    forall k | 0 <= k < |reports|
      ensures Each(RowTest(Expected(plan.scenarios)), Rows(reports[..k]) + RowsOf(reports[k]))
      ensures Distinct(Map(RowId, RowsOf(reports[k])))
    {
      PrefixPasses(d, plan, jobs, reports, k);
      ReportRowsDistinct(d, jobs[k]);
    }
    AllRowsDistinct(Expected(plan.scenarios), reports, |reports|);
    assert reports[..|reports|] == reports;
  }

  lemma {:induction false} IdsDistinct(xs: seq<Scenario>)
    requires IdsIncreasing(xs)
    ensures Distinct(Map(ScenarioId, xs))
  {
    var ids := Map(ScenarioId, xs);
    forall i, j | 0 <= i < j < |ids| ensures ids[i] != ids[j] {
      assert Lt(xs[i].scenarioId, xs[j].scenarioId);
    }
  }

  lemma {:induction false} ReportsPass(d: Digests, plan: Plan, jobs: seq<Job>, reports: seq<Report>)
    requires ProducedBy(d, plan, jobs, reports)
    ensures Each(ReportTest(d.plan(plan)), reports)
  {
    forall i | 0 <= i < |reports| ensures ReportTest(d.plan(plan))(reports[i]) {
      assert reports[i] == ReportOf(d, jobs[i]);
    }
  }
}
