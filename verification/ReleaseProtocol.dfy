/** Phase 40.13.24 as a protocol: what a certificate means after any history of worker runs, and
    what its evidence root depends on. */
module ReleaseProtocol {
  import opened Options
  import opened Orders
  import opened Sorting
  import opened Sequences
  import opened Loops
  import opened ReportDirectory
  import opened ReleasePlan
  import opened ReleaseRun

  function Worker(d: Digests): Job -> Option<Report> {
    (job: Job) => if JobAccepted(d, job) then Some(ReportOf(d, job)) else None
  }

  /** The reports the merger lists after some worker runs. */
  ghost function Merged(d: Digests, events: seq<Event<Job>>): seq<Report> {
    Listing(After(Worker(d), events))
  }

  /** The merger, run after these events, issues a certificate. */
  ghost predicate Issued(d: Digests, plan: Plan, events: seq<Event<Job>>) {
    Legible(After(Worker(d), events)) && MergeAccepted(d, plan, Merged(d, events))
  }

  /** No worker ran on a different plan with the same digest. */
  ghost predicate PlanDigestUnique(d: Digests, plan: Plan, events: seq<Event<Job>>) {
    forall i :: 0 <= i < |events| && events[i].WorkerRan? && d.plan(events[i].job.plan) == d.plan(plan)
      ==> events[i].job.plan == plan
  }

  // ----- rows and the reports they come from

  /** Row `k` of the merged list is observation `n` of report `m`. */
  lemma {:induction false} RowOrigin(reports: seq<Report>, k: nat) returns (m: nat, n: nat)
    requires k < |Rows(reports)|
    ensures m < |reports| && n < |reports[m].observations|
    ensures Rows(reports)[k] == Row(reports[m].partition, reports[m].observations[n])
  {
    m, n := FlatOrigin(RowsOf, reports, k);
    assert RowsOf(reports[m])[n] == Row(reports[m].partition, reports[m].observations[n]);
  }

  /** A worker's observation comes from running one of its own scenarios. */
  lemma {:induction false} ObservationOrigin(d: Digests, job: Job, n: nat) returns (s: Scenario)
    requires JobAccepted(d, job) && n < |ReportOf(d, job).observations|
    ensures s in job.plan.scenarios && s.partition == job.partition
    ensures RunScenario(d, job, s) == Some(ReportOf(d, job).observations[n])
  {
    var scenarios, found := Assigned(job.plan.scenarios, job.partition), RunAssigned(d, job).value;
    var sorted := SortObservations(found);
    SameMembers(sorted, found);
    assert sorted[n] in found;
    var i :| 0 <= i < |found| && found[i] == sorted[n];
    s := scenarios[i];
    assert s in scenarios;
    assert Runner(d, job)(scenarios[i]) == Some(found[i]);
  }

  lemma {:induction false} IdsDiffer(xs: seq<Scenario>, i: nat, j: nat)
    requires IdsIncreasing(xs) && i < |xs| && j < |xs|
    ensures i != j ==> xs[i].scenarioId != xs[j].scenarioId
  {
    assert i < j ==> Lt(xs[i].scenarioId, xs[j].scenarioId);
    assert j < i ==> Lt(xs[j].scenarioId, xs[i].scenarioId);
  }

  lemma {:induction false} UniqueIds(xs: seq<Scenario>, a: Scenario, b: Scenario)
    requires IdsIncreasing(xs) && a in xs && b in xs && a.scenarioId == b.scenarioId
    ensures a == b
  {
    var i :| 0 <= i < |xs| && xs[i] == a;
    var j :| 0 <= j < |xs| && xs[j] == b;
    IdsDiffer(xs, i, j);
  }

  lemma {:induction false} SameIdSameRow(rows: seq<Row>, j: nat, k: nat)
    requires Distinct(Map(RowId, rows)) && j < |rows| && k < |rows|
    ensures j != k ==> rows[j].item.scenarioId != rows[k].item.scenarioId
  {
    var ids := Map(RowId, rows);
    assert ids[j] == RowId(rows[j]) && ids[k] == RowId(rows[k]);
    if j < k { assert ids[j] != ids[k]; }
    if k < j { assert ids[k] != ids[j]; }
  }

  // ----- what a certificate means

  /** Event `e` was a successful run, on this plan and by the worker of the scenario's own partition,
      that was allowed to run it and made observation `o`. */
  ghost predicate RanBy(d: Digests, plan: Plan, events: seq<Event<Job>>, e: nat, s: Scenario, o: Observation) {
    && e < |events| && events[e].WorkerRan? && JobAccepted(d, events[e].job)
    && events[e].job.plan == plan && events[e].job.partition == s.partition
    && Approved(d, events[e].job, s)
    && RunScenario(d, events[e].job, s) == Some(o)
  }

  /** The run had the enabling flag, and an approval file with the digest the scenario names. */
  predicate ApprovedBy(d: Digests, job: Job, s: Scenario) {
    && job.allowDisruptive && job.approvalFile.Some?
    && s.approvalEvidenceSha256 == Some(d.file(job.approvalFile.value))
  }

  lemma {:induction false} WorkerReport(d: Digests, job: Job, r: Report)
    requires Worker(d)(job) == Some(r)
    ensures JobAccepted(d, job) && r == ReportOf(d, job) && r.planSha256 == d.plan(job.plan)
  {
  }

  lemma {:induction false} ReportOnPlan(d: Digests, plan: Plan, reports: seq<Report>, m: nat)
    requires BarrierPassed(d, plan, reports) && m < |reports|
    ensures reports[m].planSha256 == d.plan(plan)
  {
    assert ReportTest(d.plan(plan))(reports[m]);
  }

  lemma {:induction false} ScenarioObserved(d: Digests, plan: Plan, reports: seq<Report>, s: Scenario) returns (k: nat)
    requires BarrierPassed(d, plan, reports) && s in plan.scenarios
    ensures k < |Rows(reports)| && Rows(reports)[k].item.scenarioId == s.scenarioId
    ensures forall j :: 0 <= j < |Rows(reports)| && j != k ==> Rows(reports)[j].item.scenarioId != s.scenarioId
  {
    var rows := Rows(reports);
    var ids := Map(RowId, rows);
    assert s.scenarioId in Expected(plan.scenarios).Keys;
    assert s.scenarioId in Members(ids);
    k :| 0 <= k < |ids| && ids[k] == s.scenarioId;
    forall j | 0 <= j < |rows| && j != k ensures rows[j].item.scenarioId != s.scenarioId {
      SameIdSameRow(rows, j, k);
    }
  }

  lemma {:induction false} ReportOrigin(d: Digests, plan: Plan, events: seq<Event<Job>>, m: nat) returns (e: nat)
    requires BarrierPassed(d, plan, Merged(d, events)) && PlanDigestUnique(d, plan, events)
    requires m < |Merged(d, events)|
    ensures e < |events| && events[e].WorkerRan? && JobAccepted(d, events[e].job) && events[e].job.plan == plan
    ensures Merged(d, events)[m] == ReportOf(d, events[e].job)
  {
    var reports := Merged(d, events);
    assert reports[m] in reports;
    e := ListedReportOrigin(Worker(d), events, reports[m]);
    WorkerReport(d, events[e].job, reports[m]);
    ReportOnPlan(d, plan, reports, m);
  }

  lemma {:induction false} RowMeansScenarioRan(d: Digests, plan: Plan, events: seq<Event<Job>>, k: nat)
    returns (e: nat, s: Scenario)
    requires BarrierPassed(d, plan, Merged(d, events)) && PlanDigestUnique(d, plan, events)
    requires k < |Rows(Merged(d, events))|
    ensures s in plan.scenarios && RanBy(d, plan, events, e, s, Rows(Merged(d, events))[k].item)
    ensures Rows(Merged(d, events))[k].partition == s.partition
  {
    var reports := Merged(d, events);
    var m, n := RowOrigin(reports, k);
    e := ReportOrigin(d, plan, events, m);
    s := ObservationOrigin(d, events[e].job, n);
  }

  /** Every planned scenario has exactly one merged observation; a worker of the scenario's own
      partition made it, with the approval the scenario asks for, and it met every minimum. */
  lemma {:induction false} CertifiedScenario(d: Digests, plan: Plan, events: seq<Event<Job>>, s: Scenario)
    returns (e: nat, k: nat)
    requires IdsIncreasing(plan.scenarios) && s in plan.scenarios
    requires BarrierPassed(d, plan, Merged(d, events)) && PlanDigestUnique(d, plan, events)
    ensures k < |Rows(Merged(d, events))| && RanBy(d, plan, events, e, s, Rows(Merged(d, events))[k].item)
    ensures Met(s, Rows(Merged(d, events))[k].item) && Rows(Merged(d, events))[k].partition == s.partition
    ensures forall j :: 0 <= j < |Rows(Merged(d, events))| && j != k
              ==> Rows(Merged(d, events))[j].item.scenarioId != s.scenarioId
  {
    k := ScenarioObserved(d, plan, Merged(d, events), s);
    var t;
    e, t := RowMeansScenarioRan(d, plan, events, k);
    UniqueIds(plan.scenarios, s, t);
  }

  lemma {:induction false} PairPlanned(d: Digests, q: Request, xs: seq<Definition>, p: string, g: string)
    returns (s: Scenario)
    requires Plannable(q, xs) && p in PROVIDERS && g in GATES
    ensures s in PlanOf(d, q, xs).plan.scenarios && s.provider == p && s.gate == g
  {
    var pairs := Map(PairOf, xs);
    assert (p, g) in Pairs(PROVIDER_NAMES, GATE_NAMES);
    assert (p, g) in Members(pairs);
    var i :| 0 <= i < |pairs| && pairs[i] == (p, g);
    assert pairs[i] == PairOf(xs[i]);
    DefinitionPlanned(d, q, xs, i);
    s := ScenarioOf(d, q.partitionCount, xs[i]);
  }

  lemma {:induction false} PlannedScenarioValid(d: Digests, q: Request, xs: seq<Definition>, s: Scenario)
    requires Plannable(q, xs) && s in PlanOf(d, q, xs).plan.scenarios
    ensures s.provider in PROVIDERS && s.gate in GATES && 0 <= s.partition < q.partitionCount
    ensures s.disruptive == (s.gate in DISRUPTIVE)
    ensures s.minimumNodes >= 3 && s.minimumCpuMillis >= 3000 && s.minimumMemoryBytes >= 1
    ensures s.gate == SOAK ==> s.minimumDurationSeconds >= q.inventory.soakSeconds
  {
    var i := ScenarioOrigin(d, q, xs, s);
    assert DefinitionTest(q.inventory.soakSeconds)(xs[i]);
  }

  /** A certificate over a built plan means that every gate was passed on every provider, by a
      worker run that activated at least three nodes and three cores, recovered each injected
      failure, soaked as long as the policy asks, and, where the gate is disruptive, had the
      enabling flag and an approval file with the planned digest. */
  lemma {:induction false} EveryGateOnEveryProvider(
      d: Digests, q: Request, xs: seq<Definition>, events: seq<Event<Job>>, p: string, g: string)
    returns (s: Scenario, e: nat, o: Observation)
    requires Plannable(q, xs) && p in PROVIDERS && g in GATES
    requires Issued(d, PlanOf(d, q, xs).plan, events) && PlanDigestUnique(d, PlanOf(d, q, xs).plan, events)
    ensures s in PlanOf(d, q, xs).plan.scenarios && s.provider == p && s.gate == g
    ensures RanBy(d, PlanOf(d, q, xs).plan, events, e, s, o) && Row(s.partition, o) in Rows(Merged(d, events))
    ensures o.provider == p && o.gate == g && o.complete && o.injectedFailures == o.recoveredFailures
    ensures o.outputSha256 == o.postRecoveryResultSha256 == s.expectedOutputSha256
    ensures o.activatedNodes >= 3 && o.activatedCpuMillis >= 3000 && o.activatedMemoryBytes >= 1
    ensures g == SOAK ==> o.durationSeconds >= q.inventory.soakSeconds
    ensures g in DISRUPTIVE ==> ApprovedBy(d, events[e].job, s)
  {
    s := PairPlanned(d, q, xs, p, g);
    PlannedIdsIncrease(d, q, xs);
    PlannedScenarioValid(d, q, xs, s);
    PlannedApproval(d, q, xs, s);
    var k;
    e, k := CertifiedScenario(d, PlanOf(d, q, xs).plan, events, s);
    o := Rows(Merged(d, events))[k].item;
  }

  lemma {:induction false} PlannedApproval(d: Digests, q: Request, xs: seq<Definition>, s: Scenario)
    requires Plannable(q, xs) && s in PlanOf(d, q, xs).plan.scenarios
    ensures s.disruptive ==> s.approvalEvidenceSha256.Some?
  {
    var i := ScenarioOrigin(d, q, xs, s);
    assert DefinitionTest(q.inventory.soakSeconds)(xs[i]);
  }

  // ----- which descriptor was run

  lemma {:induction false} CatalogHolds(xs: seq<Definition>, i: nat)
    requires Distinct(Map(DefinitionId, xs)) && i < |xs|
    ensures xs[i].scenarioId in CatalogOf(xs) && CatalogOf(xs)[xs[i].scenarioId] == xs[i].descriptor
    decreases |xs|
  {
    var n := |xs| - 1;
    if i < n {
      LastIdDiffers(xs, i);
      CatalogHolds(xs[..n], i);
    }
  }

  lemma {:induction false} LastIdDiffers(xs: seq<Definition>, i: nat)
    requires Distinct(Map(DefinitionId, xs)) && i < |xs| - 1
    ensures xs[i].scenarioId != xs[|xs|-1].scenarioId && Distinct(Map(DefinitionId, xs[..|xs|-1]))
  {
    var ids, n := Map(DefinitionId, xs), |xs| - 1;
    assert ids[i] == xs[i].scenarioId && ids[n] == xs[n].scenarioId && ids[i] != ids[n];
    assert Map(DefinitionId, xs[..n]) == ids[..n];
  }

  /** A worker with the planner's own catalog runs each scenario on the planned descriptor. */
  lemma {:induction false} BuiltCatalogMatches(d: Digests, q: Request, xs: seq<Definition>, s: Scenario)
    requires Plannable(q, xs) && s in PlanOf(d, q, xs).plan.scenarios
    ensures s.scenarioId in PlanOf(d, q, xs).catalog
    ensures d.descriptor(PlanOf(d, q, xs).catalog[s.scenarioId]) == s.inputSha256
  {
    var i := ScenarioOrigin(d, q, xs, s);
    CatalogHolds(xs, i);
  }

  /** But no script compares them again: any other catalog with the same identifiers passes too, if the
      driver answers alike. */
  lemma {:induction false} DescriptorIsNotRechecked(d: Digests, job: Job, catalog: map<string, string>)
    requires JobAccepted(d, job) && catalog.Keys == job.catalog.Keys
    requires forall s, x, y :: job.driver(s, x) == job.driver(s, y)
    ensures JobAccepted(d, job.(catalog := catalog)) && ReportOf(d, job.(catalog := catalog)) == ReportOf(d, job)
  {
    var other, scenarios := job.(catalog := catalog), Assigned(job.plan.scenarios, job.partition);
    forall i | 0 <= i < |scenarios| ensures Runner(d, job)(scenarios[i]) == Runner(d, other)(scenarios[i]) {
      SameRun(d, job, catalog, scenarios[i]);
    }
    TraverseSame(Runner(d, job), Runner(d, other), scenarios);
  }

  lemma {:induction false} SameRun(d: Digests, job: Job, catalog: map<string, string>, s: Scenario)
    requires catalog.Keys == job.catalog.Keys && forall x, y :: job.driver(s, x) == job.driver(s, y)
    ensures RunScenario(d, job, s) == RunScenario(d, job.(catalog := catalog), s)
  {
    if s.scenarioId in catalog {
      assert s.scenarioId in job.catalog.Keys;
      assert job.driver(s, job.catalog[s.scenarioId]) == job.driver(s, catalog[s.scenarioId]);
    } else {
      assert s.scenarioId !in job.catalog.Keys;
    }
  }

  // ----- the final coverage test never fires

  lemma {:induction false} ObservedRow(rows: seq<Row>, id: string) returns (k: nat)
    requires id in Observed(rows)
    ensures k < |rows| && rows[k].item == Observed(rows)[id]
    decreases |rows|
  {
    var n := |rows| - 1;
    if rows[n].item.scenarioId == id {
      return n;
    }
    k := ObservedRow(rows[..n], id);
    assert rows[..n][k] == rows[k];
  }

  lemma {:induction false} ObservedMatches(d: Digests, plan: Plan, reports: seq<Report>, s: Scenario)
    requires IdsIncreasing(plan.scenarios) && BarrierPassed(d, plan, reports) && s in plan.scenarios
    ensures s.scenarioId in Observed(Rows(reports))
    ensures Observed(Rows(reports))[s.scenarioId].provider == s.provider
    ensures Observed(Rows(reports))[s.scenarioId].gate == s.gate
  {
    var rows := Rows(reports);
    var expected, observed := Expected(plan.scenarios), Observed(rows);
    assert s.scenarioId in expected.Keys;
    var k := ObservedRow(rows, s.scenarioId);
    assert RowTest(expected)(rows[k]);
    UniqueIds(plan.scenarios, s, expected[s.scenarioId]);
  }

  /** For a built plan the barrier already implies five providers and fifteen gates. */
  lemma {:induction false} BarrierSuffices(d: Digests, q: Request, xs: seq<Definition>, reports: seq<Report>)
    requires Plannable(q, xs) && BarrierPassed(d, PlanOf(d, q, xs).plan, reports)
    ensures ProvidersIn(Observed(Rows(reports))) == PROVIDERS && GatesIn(Observed(Rows(reports))) == GATES
    ensures MergeAccepted(d, PlanOf(d, q, xs).plan, reports)
  {
    ObservedInside(d, q, xs, reports);
    ObservedProviders(d, q, xs, reports);
    ObservedGates(d, q, xs, reports);
    CoverageCounts(Observed(Rows(reports)));
  }

  lemma {:induction false} CoverageCounts(observed: map<string, Observation>)
    requires PROVIDERS <= ProvidersIn(observed) <= PROVIDERS && GATES <= GatesIn(observed) <= GATES
    ensures ProvidersIn(observed) == PROVIDERS && GatesIn(observed) == GATES
    ensures |ProvidersIn(observed)| == 5 && |GatesIn(observed)| == 15
  {
    FifteenGates();
  }

  lemma {:induction false} ObservedInside(d: Digests, q: Request, xs: seq<Definition>, reports: seq<Report>)
    requires Plannable(q, xs) && BarrierPassed(d, PlanOf(d, q, xs).plan, reports)
    ensures ProvidersIn(Observed(Rows(reports))) <= PROVIDERS && GatesIn(Observed(Rows(reports))) <= GATES
  {
    var plan, observed := PlanOf(d, q, xs).plan, Observed(Rows(reports));
    PlannedIdsIncrease(d, q, xs);
    forall id | id in observed ensures observed[id].provider in PROVIDERS && observed[id].gate in GATES {
      var s := Expected(plan.scenarios)[id];
      ObservedMatches(d, plan, reports, s);
      PlannedScenarioValid(d, q, xs, s);
    }
  }

  lemma {:induction false} ObservedProviders(d: Digests, q: Request, xs: seq<Definition>, reports: seq<Report>)
    requires Plannable(q, xs) && BarrierPassed(d, PlanOf(d, q, xs).plan, reports)
    ensures PROVIDERS <= ProvidersIn(Observed(Rows(reports)))
  {
    PlannedIdsIncrease(d, q, xs);
    forall p | p in PROVIDERS ensures p in ProvidersIn(Observed(Rows(reports))) {
      assert GATE_NAMES[0] in GATES;
      var s := PairPlanned(d, q, xs, p, GATE_NAMES[0]);
      ObservedMatches(d, PlanOf(d, q, xs).plan, reports, s);
    }
  }

  lemma {:induction false} ObservedGates(d: Digests, q: Request, xs: seq<Definition>, reports: seq<Report>)
    requires Plannable(q, xs) && BarrierPassed(d, PlanOf(d, q, xs).plan, reports)
    ensures GATES <= GatesIn(Observed(Rows(reports)))
  {
    PlannedIdsIncrease(d, q, xs);
    forall g | g in GATES ensures g in GatesIn(Observed(Rows(reports))) {
      assert PROVIDER_NAMES[0] in PROVIDERS;
      var s := PairPlanned(d, q, xs, PROVIDER_NAMES[0], g);
      ObservedMatches(d, PlanOf(d, q, xs).plan, reports, s);
    }
  }

  // ----- file order, partition count and workers leave the evidence root alone

  lemma {:induction false} ObservedExact(rows: seq<Row>, k: nat)
    requires Distinct(Map(RowId, rows)) && k < |rows|
    ensures RowId(rows[k]) in Observed(rows) && Observed(rows)[RowId(rows[k])] == rows[k].item
  {
    var ids := Map(RowId, rows);
    assert ids[k] == RowId(rows[k]) && ids[k] in ids;
    var j := ObservedRow(rows, RowId(rows[k]));
    SameIdSameRow(rows, j, k);
  }

  lemma {:induction false} ObservedPermutation(a: seq<Row>, b: seq<Row>)
    requires multiset(a) == multiset(b) && Distinct(Map(RowId, a))
    ensures Observed(a) == Observed(b)
  {
    MapPermutation(RowId, a, b);
    DistinctPermutation(Map(RowId, a), Map(RowId, b));
    SameMembers(Map(RowId, a), Map(RowId, b));
    SameMembers(a, b);
    assert Observed(a).Keys == Observed(b).Keys;
    forall id | id in Observed(a) ensures Observed(a)[id] == Observed(b)[id] {
      var k := ObservedRow(a, id);
      assert a[k] in b;
      var j :| 0 <= j < |b| && b[j] == a[k];
      ObservedExact(a, k);
      ObservedExact(b, j);
    }
  }

  lemma {:induction false} BarrierPermutation(d: Digests, plan: Plan, a: seq<Report>, b: seq<Report>)
    requires multiset(a) == multiset(b) && BarrierPassed(d, plan, a)
    ensures BarrierPassed(d, plan, b)
    ensures Observed(Rows(a)) == Observed(Rows(b))
  {
    SameMembers(a, b);
    EachPermutation(ReportTest(d.plan(plan)), a, b);
    MapPermutation(PartitionOf, a, b);
    MapPermutation(WorkerOf, a, b);
    DistinctPermutation(Map(PartitionOf, a), Map(PartitionOf, b));
    DistinctPermutation(Map(WorkerOf, a), Map(WorkerOf, b));
    SameMembers(Map(PartitionOf, a), Map(PartitionOf, b));
    FlatPermutation(RowsOf, a, b);
    BarrierRows(RowTest(Expected(plan.scenarios)), Rows(a), Rows(b));
    ObservedPermutation(Rows(a), Rows(b));
  }

  lemma {:induction false} BarrierRows(test: Row -> bool, a: seq<Row>, b: seq<Row>)
    requires multiset(a) == multiset(b) && RowsDistinct(test, a)
    ensures RowsDistinct(test, b)
    ensures Members(Map(RowId, a)) == Members(Map(RowId, b))
  {
    EachPermutation(test, a, b);
    MapPermutation(RowId, a, b);
    DistinctPermutation(Map(RowId, a), Map(RowId, b));
    SameMembers(Map(RowId, a), Map(RowId, b));
  }

  /** Renaming the report files changes neither the verdict nor the certificate. */
  lemma {:induction false} FileOrderIrrelevant(d: Digests, plan: Plan, a: seq<Report>, b: seq<Report>)
    requires multiset(a) == multiset(b)
    ensures MergeAccepted(d, plan, a) <==> MergeAccepted(d, plan, b)
    ensures MergeAccepted(d, plan, a) ==>
      CertificateOf(d, plan, Observed(Rows(a))) == CertificateOf(d, plan, Observed(Rows(b)))
  {
    if BarrierPassed(d, plan, a) { BarrierPermutation(d, plan, a, b); }
    if BarrierPassed(d, plan, b) { BarrierPermutation(d, plan, b, a); }
  }
}
