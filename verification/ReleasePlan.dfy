/** Phase 40.13.24: the planner, which asks every release gate of every provider. */
module ReleasePlan {
  import opened HexSha
  import opened Options
  import opened Orders
  import opened Sorting
  import opened Sequences
  import opened Partitions

  /** Sorted, so that they are easily seen to be different. */
  const PROVIDER_NAMES: seq<string> := ["aks", "eks", "gke", "rke", "rke2"]

  const GATE_NAMES: seq<string> := [
    "backup-restore", "compute-chaos", "cve", "helm", "image-provenance", "license", "multinode-soak",
    "network-chaos", "provider-portability", "reproducible-build", "rollback", "sbom",
    "semantic-context-graph", "storage-chaos", "upgrade"]

  const PROVIDERS: set<string> := Members(PROVIDER_NAMES)
  const GATES: set<string> := Members(GATE_NAMES)
  const DISRUPTIVE: set<string> :=
    {"compute-chaos", "network-chaos", "storage-chaos", "upgrade", "rollback", "backup-restore"}
  const SOAK := "multinode-soak"

  /** One scenario definition; `closed` says that it has exactly the required fields. Descriptors
      are canonical JSON. */
  datatype Definition = Definition(
    closed: bool, scenarioId: string, provider: string, gate: string, expectedOutputSha256: string,
    minimumNodes: int, minimumCpuMillis: int, minimumMemoryBytes: int, minimumDurationSeconds: int,
    disruptive: bool, approvalEvidenceSha256: Option<string>, descriptor: string)

  datatype Scenario = Scenario(
    scenarioId: string, provider: string, gate: string, expectedOutputSha256: string,
    minimumNodes: int, minimumCpuMillis: int, minimumMemoryBytes: int, minimumDurationSeconds: int,
    disruptive: bool, approvalEvidenceSha256: Option<string>, inputSha256: string, partition: int)

  datatype Plan = Plan(
    runId: string, releaseSha256: string, performanceCertificateSha256: string, semanticEvidenceSha256: string,
    inventorySha256: string, partitionCount: int, scenarios: seq<Scenario>)

  datatype Inventory = Inventory(
    providers: set<string>, gates: set<string>, cpuPercent: int, memoryPercent: int, workerNodes: int,
    soakSeconds: int, rest: string)

  datatype Performance = Performance(complete: bool, failedThresholdCount: int, rest: string)

  /** `identities` are the five digests that are only checked for their form. */
  datatype Semantic = Semantic(
    identities: seq<string>, resultGraphSha256: string, scalarOracleGraphSha256: string, domainCount: int,
    hopCount: int, reasonedOutputTriples: int, activatedNodes: int, activatedCpuMillis: int, activatedMemoryBytes: int,
    queryForm: string, complete: bool, proofCoverage: string)

  /** Everything the planner reads besides the scenario definitions. */
  datatype Request = Request(
    inventory: Inventory, performance: Performance, semantic: Semantic, headerValid: bool, runId: string,
    releaseSha256: string, partitionCount: int)

  /** The digests of the canonical JSON of each document, of an approval file, and the first eight
      digest bytes of a scenario identity read as a big-endian number. */
  datatype Digests = Digests(
    descriptor: string -> Sha, inventory: Inventory -> Sha, performance: Performance -> Sha, semantic: Semantic -> Sha,
    plan: Plan -> Sha, file: string -> Sha, bucket: string -> nat)

  // ----- what the planner checks

  predicate SemanticValid(s: Semantic) {
    && (forall i :: 0 <= i < |s.identities| ==> IsSha(s.identities[i])) && IsSha(s.resultGraphSha256)
    && s.resultGraphSha256 == s.scalarOracleGraphSha256
    && s.domainCount >= 3 && s.hopCount >= 2 && s.reasonedOutputTriples >= 1
    && s.activatedNodes >= 2 && s.activatedCpuMillis >= 2000 && s.activatedMemoryBytes >= 1
    && s.queryForm in {"CONSTRUCT", "DESCRIBE"} && s.complete && s.proofCoverage == "complete"
  }

  predicate RequestValid(q: Request) {
    && IsSha(q.releaseSha256) && 1 <= q.partitionCount <= 65536
    && q.inventory.providers == PROVIDERS && q.inventory.gates == GATES
    && q.inventory.cpuPercent == 80 && q.inventory.memoryPercent == 80 && q.inventory.workerNodes >= 3
    && q.performance.complete && q.performance.failedThresholdCount == 0
    && SemanticValid(q.semantic)
    && q.headerValid
  }

  predicate DefinitionValid(soakSeconds: int, x: Definition) {
    && x.closed
    && x.provider in PROVIDERS && x.gate in GATES && IsSha(x.expectedOutputSha256)
    && x.disruptive == (x.gate in DISRUPTIVE)
    && (if x.disruptive then x.approvalEvidenceSha256.Some? && IsSha(x.approvalEvidenceSha256.value)
        else x.approvalEvidenceSha256.None?)
    && x.minimumNodes >= 3 && x.minimumCpuMillis >= 3000 && x.minimumMemoryBytes >= 1
    && (x.gate == SOAK ==> x.minimumDurationSeconds >= soakSeconds)
  }

  function DefinitionTest(soakSeconds: int): Definition -> bool {
    (x: Definition) => DefinitionValid(soakSeconds, x)
  }

  function DefinitionId(x: Definition): string { x.scenarioId }
  function PairOf(x: Definition): (string, string) { (x.provider, x.gate) }

  function Pairs(providers: seq<string>, gates: seq<string>): set<(string, string)> {
    set p, g | p in providers && g in gates :: (p, g)
  }

  predicate DefinitionsValid(soakSeconds: int, xs: seq<Definition>) {
    Each(DefinitionTest(soakSeconds), xs) && Distinct(Map(DefinitionId, xs))
  }

  predicate Covers(xs: seq<Definition>) {
    Members(Map(PairOf, xs)) == Pairs(PROVIDER_NAMES, GATE_NAMES)
  }

  predicate Plannable(q: Request, xs: seq<Definition>) {
    RequestValid(q) && DefinitionsValid(q.inventory.soakSeconds, xs) && Covers(xs)
  }

  // ----- the plan

  function ScenarioOf(d: Digests, count: PartitionCount, x: Definition): Scenario {
    var inputSha := d.descriptor(x.descriptor);
    Scenario(x.scenarioId, x.provider, x.gate, x.expectedOutputSha256, x.minimumNodes, x.minimumCpuMillis,
             x.minimumMemoryBytes, x.minimumDurationSeconds, x.disruptive, x.approvalEvidenceSha256, inputSha,
             StablePartition(d.bucket, x.scenarioId, inputSha, count))
  }

  function Planner(d: Digests, count: PartitionCount): Definition -> Scenario {
    (x: Definition) => ScenarioOf(d, count, x)
  }

  function ScenarioId(s: Scenario): string { s.scenarioId }

  predicate ScenarioLe(a: Scenario, b: Scenario) {
    Le(a.scenarioId, b.scenarioId)
  }

  lemma {:induction false} ScenarioOrder()
    ensures TotalPreorder(ScenarioLe)
  {
    LeIsTotalOrder();
  }

  function SortScenarios(xs: seq<Scenario>): (r: seq<Scenario>)
    ensures multiset(r) == multiset(xs) && SortedBy(r, ScenarioLe)
  {
    ScenarioOrder();
    SortBy(xs, ScenarioLe)
  }

  function CatalogOf(xs: seq<Definition>): map<string, string> {
    if xs == [] then map[] else
      var x := xs[|xs|-1];
      CatalogOf(xs[..|xs|-1])[x.scenarioId := x.descriptor]
  }

  datatype Built = Built(plan: Plan, catalog: map<string, string>)

  function PlanWith(d: Digests, q: Request, scenarios: seq<Scenario>): Plan {
    Plan(q.runId, q.releaseSha256, d.performance(q.performance), d.semantic(q.semantic), d.inventory(q.inventory),
         q.partitionCount, SortScenarios(scenarios))
  }

  function PlanOf(d: Digests, q: Request, xs: seq<Definition>): Built
    requires q.partitionCount > 0
  {
    Built(PlanWith(d, q, Map(Planner(d, q.partitionCount), xs)), CatalogOf(xs))
  }

  /** The loop over the definitions, with its `seen` and `coverage` sets, scenario list and catalog. */
  method PlanScenarios(d: Digests, count: PartitionCount, soakSeconds: int, xs: seq<Definition>)
    returns (ok: bool, scenarios: seq<Scenario>, catalog: map<string, string>, coverage: set<(string, string)>)
    ensures ok <==> DefinitionsValid(soakSeconds, xs)
    ensures ok ==>
      scenarios == Map(Planner(d, count), xs) && catalog == CatalogOf(xs) && coverage == Members(Map(PairOf, xs))
  {
    var seen: set<string> := {};
    var test := DefinitionTest(soakSeconds);
    scenarios, catalog, coverage := [], map[], {};
    assert xs[..0] == [];
    for i := 0 to |xs|
      invariant Each(test, xs[..i])
      invariant Distinct(Map(DefinitionId, xs[..i])) && seen == Members(Map(DefinitionId, xs[..i]))
      invariant scenarios == Map(Planner(d, count), xs[..i])
      invariant catalog == CatalogOf(xs[..i])
      invariant coverage == Members(Map(PairOf, xs[..i]))
    {
      var x := xs[i];
      EachStep(test, xs, i);
      MapPrefix(DefinitionId, xs, i);
      if x.scenarioId in seen || !DefinitionValid(soakSeconds, x) { return false, scenarios, catalog, coverage; }
      PlanStep(d, count, xs, i);
      seen := seen + {x.scenarioId};
      scenarios := scenarios + [ScenarioOf(d, count, x)];
      catalog := catalog[x.scenarioId := x.descriptor];
      coverage := coverage + {(x.provider, x.gate)};
    }
    assert xs[..|xs|] == xs;
    ok := true;
  }

  lemma {:induction false} PlanStep(d: Digests, count: PartitionCount, xs: seq<Definition>, i: nat)
    requires i < |xs|
    ensures Map(Planner(d, count), xs[..i+1]) == Map(Planner(d, count), xs[..i]) + [ScenarioOf(d, count, xs[i])]
    ensures CatalogOf(xs[..i+1]) == CatalogOf(xs[..i])[xs[i].scenarioId := xs[i].descriptor]
    ensures Members(Map(PairOf, xs[..i+1])) == Members(Map(PairOf, xs[..i])) + {(xs[i].provider, xs[i].gate)}
  {
    assert xs[..i+1] == xs[..i] + [xs[i]];
    MapSnoc(Planner(d, count), xs[..i], xs[i]);
    MapSnoc(PairOf, xs[..i], xs[i]);
    MembersSnoc(Map(PairOf, xs[..i]), PairOf(xs[i]));
    CatalogSnoc(xs[..i], xs[i]);
  }

  lemma {:induction false} CatalogSnoc(xs: seq<Definition>, x: Definition)
    ensures CatalogOf(xs + [x]) == CatalogOf(xs)[x.scenarioId := x.descriptor]
  {
    assert (xs + [x])[..|xs|] == xs;
  }

  method BuildPlan(d: Digests, q: Request, xs: seq<Definition>) returns (built: Option<Built>)
    ensures built.Some? <==> Plannable(q, xs)
    ensures built.Some? ==> built.value == PlanOf(d, q, xs)
  {
    if !RequestValid(q) { return None; }
    var ok, scenarios, catalog, coverage := PlanScenarios(d, q.partitionCount, q.inventory.soakSeconds, xs);
    if !ok || coverage != Pairs(PROVIDER_NAMES, GATE_NAMES) { return None; }
    return Some(Built(PlanWith(d, q, scenarios), catalog));
  }

  // ----- what a built plan looks like

  predicate IdsIncreasing(xs: seq<Scenario>) {
    forall i, j :: 0 <= i < j < |xs| ==> Lt(xs[i].scenarioId, xs[j].scenarioId)
  }

  lemma {:induction false} ScenarioOrigin(d: Digests, q: Request, xs: seq<Definition>, s: Scenario) returns (i: nat)
    requires q.partitionCount > 0 && s in PlanOf(d, q, xs).plan.scenarios
    ensures i < |xs| && s == ScenarioOf(d, q.partitionCount, xs[i])
  {
    var all := Map(Planner(d, q.partitionCount), xs);
    SameMembers(SortScenarios(all), all);
    i :| 0 <= i < |all| && all[i] == s;
  }

  lemma {:induction false} DefinitionPlanned(d: Digests, q: Request, xs: seq<Definition>, i: nat)
    requires q.partitionCount > 0 && i < |xs|
    ensures ScenarioOf(d, q.partitionCount, xs[i]) in PlanOf(d, q, xs).plan.scenarios
  {
    var all := Map(Planner(d, q.partitionCount), xs);
    SameMembers(SortScenarios(all), all);
    assert all[i] in all;
  }

  /** A built plan lists every definition once, in strict identifier order. */
  lemma {:induction false} PlannedIdsIncrease(d: Digests, q: Request, xs: seq<Definition>)
    requires q.partitionCount > 0 && Distinct(Map(DefinitionId, xs))
    ensures IdsIncreasing(PlanOf(d, q, xs).plan.scenarios)
    ensures |PlanOf(d, q, xs).plan.scenarios| == |xs|
  {
    var all := Map(Planner(d, q.partitionCount), xs);
    var r := SortScenarios(all);
    SameMembers(r, all);
    assert Map(ScenarioId, all) == Map(DefinitionId, xs);
    MapPermutation(ScenarioId, all, r);
    DistinctPermutation(Map(ScenarioId, all), Map(ScenarioId, r));
    forall i, j | 0 <= i < j < |r| ensures Lt(r[i].scenarioId, r[j].scenarioId) {
      assert ScenarioLe(r[i], r[j]);
      assert Map(ScenarioId, r)[i] != Map(ScenarioId, r)[j];
    }
  }

  lemma {:induction false} FifteenGates()
    ensures |GATES| == 15 && |PROVIDERS| == 5
  {
    GateOrder();
    ProviderOrder();
    DistinctBySize(GATE_NAMES);
    DistinctBySize(PROVIDER_NAMES);
  }

  lemma {:induction false} ProviderOrder()
    ensures StrictlyIncreasing(PROVIDER_NAMES) && Distinct(PROVIDER_NAMES)
  {
    Ascending(PROVIDER_NAMES);
  }

  lemma {:induction false} GateOrder()
    ensures StrictlyIncreasing(GATE_NAMES) && Distinct(GATE_NAMES)
  {
    Ascending(GATE_NAMES);
  }

  /** Neighbours in order put the whole list in order. */
  lemma {:induction false} Ascending(s: seq<string>)
    requires forall i :: 0 <= i < |s| - 1 ==> Lt(s[i], s[i+1])
    ensures StrictlyIncreasing(s) && Distinct(s)
  {
    forall i, j | 0 <= i < j < |s| ensures Lt(s[i], s[j]) {
      AscendingPair(s, i, j);
    }
  }

  lemma {:induction false} AscendingPair(s: seq<string>, i: nat, j: nat)
    requires forall k :: 0 <= k < |s| - 1 ==> Lt(s[k], s[k+1])
    requires i < j < |s|
    ensures Lt(s[i], s[j])
    decreases j
  {
    if i < j - 1 {
      AscendingPair(s, i, j - 1);
      assert Lt(s[j-1], s[j-1+1]);
      LeTransitive(s[i], s[j-1], s[j]);
      if s[i] == s[j] { LeAntisymmetric(s[j-1], s[j]); }
    }
  }
}
