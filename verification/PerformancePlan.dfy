/** Phase 40.13.23: the planner, with its dataset and capacity-group checks. */
module PerformancePlan {
  import opened HexSha
  import opened Options
  import opened Orders
  import opened Sorting
  import opened Sequences
  import opened Loops
  import opened Partitions
  import opened IntegerStatistics
  import opened PerformanceRun
  import opened PerformanceMerge
  import opened PerformanceDensity
  import opened PerformanceProtocol
  import opened PerformanceTeam

  const FAMILIES: set<string> :=
    {"trig-ingestion", "semantic-compilation", "offline-reasoning", "property-path", "sparql-query",
     "concurrent-sparql", "recovery"}

  datatype Dataset = Dataset(
    closed: bool, sha256: string, snapshotSha256: string, bytes: int, namedGraphs: int, triples: int,
    propertyPathEdges: int, owl2DlQualified: bool, pinnedImports: bool, provenance: bool, rest: string)

  /** One definition; `closed` says that it has exactly the required fields. The input digest and the
      partition of `settings` are not part of it; the planner fills them in. */
  datatype Definition = Definition(closed: bool, settings: Scenario, descriptor: string, dataset: Option<Dataset>)

  /** Everything the planner reads besides the definitions; `headerClosed` says that the definitions
      have exactly the fields of version 1. */
  datatype Order = Order(
    inventory: Inventory, pricing: Pricing, hardware: Hardware, autoscaling: Autoscaling, headerClosed: bool,
    runId: string, ngkgImageSha256: string, jenaImageSha256: Option<string>, partitionCount: int)

  predicate HardwareValid(x: Hardware) {
    x.closed && x.complete && x.formatVersion == 1 && x.cgroupVersion == 2
  }

  predicate PricingValid(x: Pricing) {
    x.closed && x.complete && x.formatVersion == 1 && x.currency == "USD" && IsSha(x.sourceUrlSha256)
  }

  predicate OrderValid(q: Order) {
    && 1 <= q.partitionCount <= 65536 && IsSha(q.ngkgImageSha256)
    && (q.jenaImageSha256.Some? ==> IsSha(q.jenaImageSha256.value))
    && q.autoscaling.complete && q.autoscaling.targetPercent == 80
    && q.headerClosed && HardwareValid(q.hardware) && PricingValid(q.pricing)
  }

  predicate DatasetValid(policy: Policy, family: string, x: Dataset) {
    && x.closed && IsSha(x.sha256) && IsSha(x.snapshotSha256)
    && x.bytes >= policy.datasetBytes && x.namedGraphs >= policy.namedGraphs && x.triples >= policy.triples
    && (family == "property-path" ==> x.propertyPathEdges >= policy.pathEdges)
    && x.owl2DlQualified && x.pinnedImports && x.provenance
  }

  predicate DefinitionValid(policy: Policy, hasJena: bool, x: Definition) {
    var s := x.settings;
    && x.closed && s.family in FAMILIES && IsSha(s.expectedResultSha256)
    && (s.requireExternalJena ==> hasJena) && (s.family in policy.baselineFamilies ==> s.requireExternalJena)
    && s.warmupTrials >= policy.warmupTrials && s.measuredTrials >= policy.measuredTrials && s.concurrency >= 1
    && x.dataset.Some? && DatasetValid(policy, s.family, x.dataset.value)
  }

  function DefinitionTest(policy: Policy, hasJena: bool): Definition -> bool {
    (x: Definition) => DefinitionValid(policy, hasJena, x)
  }

  function DefinitionId(x: Definition): string { x.settings.scenarioId }
  function DatasetSha(x: Definition): string { if x.dataset.Some? then x.dataset.value.sha256 else "" }

  /** One dataset digest never carries two descriptions. */
  ghost predicate DatasetsConsistent(xs: seq<Definition>) {
    forall i, j :: 0 <= i < j < |xs| && DatasetSha(xs[i]) == DatasetSha(xs[j]) ==> xs[i].dataset == xs[j].dataset
  }

  // ----- capacity groups

  function ScaleIn(s: Scenario): int { s.scaleOrdinal }

  predicate ScenarioScaleLe(a: Scenario, b: Scenario) { ScaleIn(a) <= ScaleIn(b) }

  function SortByScale(points: seq<Scenario>): (r: seq<Scenario>)
    ensures multiset(r) == multiset(points) && SortedBy(r, ScenarioScaleLe) && |r| == |points|
  {
    var r := SortBy(points, ScenarioScaleLe);
    SameMembers(r, points);
    r
  }

  predicate MoreResources(a: Scenario, b: Scenario) {
    && a.requestedNodes < b.requestedNodes && a.requestedCpuMillis < b.requestedCpuMillis
    && a.requestedMemoryBytes < b.requestedMemoryBytes
  }

  function NodesIn(s: Scenario): int { s.requestedNodes }

  /** The first `n` points grow strictly, each against every earlier one. */
  predicate Growing(points: seq<Scenario>, n: nat)
    requires n <= |points|
  {
    forall i, j :: 0 <= i < j < n ==> MoreResources(points[i], points[j])
  }

  predicate SameMeaning(a: Scenario, b: Scenario) {
    a.family == b.family && a.expectedResultSha256 == b.expectedResultSha256
  }

  predicate Steady(points: seq<Scenario>, n: nat)
    requires n <= |points|
  {
    forall i :: 0 <= i < n ==> SameMeaning(points[i], points[0])
  }

  /** Dense scale points that keep one meaning, with resources growing strictly from each point to
      every later one, and every required node count among them. */
  predicate GroupValid(nodeCounts: set<int>, sorted: seq<Scenario>) {
    && Map(ScaleIn, sorted) == Indices(|sorted|)
    && Growing(sorted, |sorted|) && Steady(sorted, |sorted|)
    && nodeCounts <= Members(Map(NodesIn, sorted))
  }

  lemma {:induction false} GrowingStep(points: seq<Scenario>, n: nat)
    requires 1 <= n < |points| && Growing(points, n)
    ensures Growing(points, n + 1) <==> MoreResources(points[n-1], points[n])
    ensures Growing(points, |points|) ==> MoreResources(points[n-1], points[n])
  {
    if MoreResources(points[n-1], points[n]) {
      forall i, j | 0 <= i < j < n + 1 ensures MoreResources(points[i], points[j]) {
        assert i < n - 1 ==> MoreResources(points[i], points[n-1]);
      }
    }
  }

  /** The check of one group, which compares neighbours only. */
  method CheckGroup(nodeCounts: set<int>, sorted: seq<Scenario>) returns (ok: bool)
    ensures ok <==> GroupValid(nodeCounts, sorted)
  {
    if Map(ScaleIn, sorted) != Indices(|sorted|) { return false; }
    ok := CheckNeighbours(sorted);
    if ok { ok := nodeCounts <= Members(Map(NodesIn, sorted)); }
  }

  method CheckNeighbours(sorted: seq<Scenario>) returns (ok: bool)
    ensures ok <==> Growing(sorted, |sorted|) && Steady(sorted, |sorted|)
  {
    if sorted == [] { return true; }
    for n := 1 to |sorted|
      invariant Growing(sorted, n) && Steady(sorted, n)
    {
      GrowingStep(sorted, n);
      if !SameMeaning(sorted[n], sorted[0]) { return false; }
      if !MoreResources(sorted[n-1], sorted[n]) { return false; }
    }
    ok := true;
  }

  function GroupIn(name: string, scenarios: seq<Scenario>): seq<Scenario> {
    Filter(GroupIs(name), scenarios)
  }

  function GroupNamesIn(scenarios: seq<Scenario>): set<string> {
    set i | 0 <= i < |scenarios| :: scenarios[i].capacityGroup
  }

  predicate PointsValid(nodeCounts: set<int>, points: seq<Scenario>) {
    GroupValid(nodeCounts, SortByScale(points))
  }

  predicate GroupsValid(nodeCounts: set<int>, scenarios: seq<Scenario>) {
    forall name :: name in GroupNamesIn(scenarios) ==> PointsValid(nodeCounts, GroupIn(name, scenarios))
  }

  // ----- the plan

  function ScenarioOf(d: Digests, count: PartitionCount, x: Definition): Scenario {
    var inputSha := d.descriptor(Some(x.descriptor));
    x.settings.(inputSha256 := inputSha, partition := StablePartition(d.bucket, x.settings.scenarioId, inputSha, count))
  }

  function Planner(d: Digests, count: PartitionCount): Definition -> Scenario {
    (x: Definition) => ScenarioOf(d, count, x)
  }

  function ClientLevels(scenarios: seq<Scenario>): set<int> {
    Members(Map(ConcurrencyOf, Filter(FamilyTest("concurrent-sparql"), scenarios)))
  }

  /** The matrix checks after the loop over the definitions. */
  predicate MatrixValid(policy: Policy, shas: set<string>, scenarios: seq<Scenario>) {
    && GroupsValid(policy.nodeCounts, scenarios)
    && |shas| >= policy.distinctDatasets
    && policy.concurrencyLevels <= ClientLevels(scenarios)
  }

  ghost predicate DefinitionsValid(policy: Policy, hasJena: bool, xs: seq<Definition>) {
    Acceptable(DefinitionTest(policy, hasJena), xs)
  }

  ghost predicate Plannable(d: Digests, q: Order, xs: seq<Definition>) {
    && OrderValid(q)
    && DefinitionsValid(q.inventory.policy, q.jenaImageSha256.Some?, xs)
    && MatrixValid(q.inventory.policy, Members(Map(DatasetSha, xs)), Map(Planner(d, q.partitionCount), xs))
  }

  predicate ScenarioLe(a: Scenario, b: Scenario) {
    Le(a.scenarioId, b.scenarioId)
  }

  lemma {:induction false} ScenarioOrder()
    ensures TotalPreorder(ScenarioLe)
  {
    LeIsTotalOrder();
  }

  function SortScenarios(xs: seq<Scenario>): (r: seq<Scenario>)
    ensures multiset(r) == multiset(xs) && SortedBy(r, ScenarioLe)
  {
    ScenarioOrder();
    SortBy(xs, ScenarioLe)
  }

  function PlanWith(d: Digests, q: Order, scenarios: seq<Scenario>): Plan {
    Plan(q.runId, d.inventory(q.inventory), q.ngkgImageSha256, q.jenaImageSha256, d.hardware(q.hardware),
         d.pricing(q.pricing), d.autoscaling(q.autoscaling), q.partitionCount, SortScenarios(scenarios))
  }

  function PlanOf(d: Digests, q: Order, xs: seq<Definition>): Plan
    requires q.partitionCount > 0
  {
    PlanWith(d, q, Map(Planner(d, q.partitionCount), xs))
  }

  /** The `datasets` dictionary knows exactly the datasets of the definitions so far. */
  ghost predicate Knows(datasets: map<string, Option<Dataset>>, xs: seq<Definition>) {
    && datasets.Keys == Members(Map(DatasetSha, xs))
    && forall i :: 0 <= i < |xs| ==> DatasetSha(xs[i]) in datasets && datasets[DatasetSha(xs[i])] == xs[i].dataset
  }

  /** The digest is already known under another description. */
  predicate Clashes(datasets: map<string, Option<Dataset>>, x: Definition) {
    DatasetSha(x) in datasets && datasets[DatasetSha(x)] != x.dataset
  }

  ghost predicate Acceptable(test: Definition -> bool, xs: seq<Definition>) {
    Each(test, xs) && Distinct(Map(DefinitionId, xs)) && DatasetsConsistent(xs)
  }

  predicate Addable(
      test: Definition -> bool, datasets: map<string, Option<Dataset>>, seen: set<string>, x: Definition) {
    test(x) && x.settings.scenarioId !in seen && !Clashes(datasets, x)
  }

  /** What the loop over the definitions has accumulated. */
  datatype Progress = Progress(seen: set<string>, scenarios: seq<Scenario>, datasets: map<string, Option<Dataset>>)

  function Advance(
      planner: Definition -> Scenario, test: Definition -> bool, p: Progress, x: Definition): Option<Progress> {
    if Addable(test, p.datasets, p.seen, x)
    then Some(Progress(p.seen + {x.settings.scenarioId}, p.scenarios + [planner(x)],
                       p.datasets[DatasetSha(x) := x.dataset]))
    else None
  }

  function Progressed(
      planner: Definition -> Scenario, test: Definition -> bool, xs: seq<Definition>): Option<Progress> {
    if xs == [] then Some(Progress({}, [], map[])) else
      var p := Progressed(planner, test, xs[..|xs|-1]);
      if p.None? then None else Advance(planner, test, p.value, xs[|xs|-1])
  }

  /** The loop over the definitions, with its `seen` set and `datasets` dictionary. */
  method PlanScenarios(planner: Definition -> Scenario, test: Definition -> bool, xs: seq<Definition>)
    returns (ok: bool, scenarios: seq<Scenario>, datasets: map<string, Option<Dataset>>)
    ensures ok <==> Acceptable(test, xs)
    ensures ok ==> scenarios == Map(planner, xs) && datasets.Keys == Members(Map(DatasetSha, xs))
  {
    var seen: set<string>;
    seen, scenarios, datasets := {}, [], map[];
    for i := 0 to |xs|
      invariant Progressed(planner, test, xs[..i]) == Some(Progress(seen, scenarios, datasets))
    {
      var x := xs[i];
      ProgressStep(planner, test, xs, i);
      if !Addable(test, datasets, seen, x) {
        ProgressMeans(planner, test, xs);
        return false, scenarios, datasets;
      }
      seen := seen + {x.settings.scenarioId};
      datasets := datasets[DatasetSha(x) := x.dataset];
      scenarios := scenarios + [planner(x)];
    }
    assert xs[..|xs|] == xs;
    ProgressMeans(planner, test, xs);
    ok := true;
  }

  lemma {:induction false} ProgressStep(
      planner: Definition -> Scenario, test: Definition -> bool, xs: seq<Definition>, i: nat)
    requires i < |xs| && Progressed(planner, test, xs[..i]).Some?
    ensures Progressed(planner, test, xs[..i+1])
      == Advance(planner, test, Progressed(planner, test, xs[..i]).value, xs[i])
    ensures Progressed(planner, test, xs[..i+1]).None? ==> Progressed(planner, test, xs).None?
  {
    var t := xs[..i+1];
    assert t[..i] == xs[..i] && t[i] == xs[i];
    ProgressPrefix(planner, test, xs, i + 1);
  }

  lemma {:induction false} ProgressPrefix(
      planner: Definition -> Scenario, test: Definition -> bool, xs: seq<Definition>, i: nat)
    requires i <= |xs|
    ensures Progressed(planner, test, xs[..i]).None? ==> Progressed(planner, test, xs).None?
  {
    if i == |xs| {
      assert xs[..i] == xs;
    } else {
      ProgressPrefix(planner, test, xs[..|xs|-1], i);
      assert xs[..|xs|-1][..i] == xs[..i];
    }
  }

  /** The loop succeeds exactly on acceptable definitions, and then holds what it should. */
  lemma {:induction false} ProgressMeans(planner: Definition -> Scenario, test: Definition -> bool, xs: seq<Definition>)
    ensures Progressed(planner, test, xs).Some? <==> Acceptable(test, xs)
    ensures var p := Progressed(planner, test, xs);
      p.Some? ==>
        && p.value.seen == Members(Map(DefinitionId, xs)) && p.value.scenarios == Map(planner, xs)
        && Knows(p.value.datasets, xs)
    decreases |xs|
  {
    if xs == [] {
      NothingYet(test);
    } else {
      var n := |xs| - 1;
      var p := Progressed(planner, test, xs[..n]);
      ProgressMeans(planner, test, xs[..n]);
      assert xs[..n+1] == xs && xs == xs[..n] + [xs[n]];
      if p.None? {
        if Acceptable(test, xs) { AcceptablePrefix(test, xs); }
      } else {
        AcceptableStep(test, p.value.datasets, p.value.seen, xs, n);
        MapSnoc(planner, xs[..n], xs[n]);
      }
    }
  }

  lemma {:induction false} AcceptablePrefix(test: Definition -> bool, xs: seq<Definition>)
    requires xs != [] && Acceptable(test, xs)
    ensures Acceptable(test, xs[..|xs|-1])
  {
    var init := xs[..|xs|-1];
    assert forall i :: 0 <= i < |init| ==> init[i] == xs[i];
    assert Map(DefinitionId, init) == Map(DefinitionId, xs)[..|xs|-1];
  }

  lemma {:induction false} NothingYet(test: Definition -> bool)
    ensures Acceptable(test, []) && Knows(map[], [])
  {
  }

  lemma {:induction false} AcceptableStep(
      test: Definition -> bool, datasets: map<string, Option<Dataset>>, seen: set<string>, xs: seq<Definition>,
      i: nat)
    requires i < |xs| && Acceptable(test, xs[..i]) && Knows(datasets, xs[..i])
    requires seen == Members(Map(DefinitionId, xs[..i]))
    ensures Acceptable(test, xs) ==> Addable(test, datasets, seen, xs[i])
    ensures Members(Map(DefinitionId, xs[..i+1])) == seen + {xs[i].settings.scenarioId}
    ensures Addable(test, datasets, seen, xs[i]) ==>
      Acceptable(test, xs[..i+1]) && Knows(datasets[DatasetSha(xs[i]) := xs[i].dataset], xs[..i+1])
  {
    EachStep(test, xs, i);
    MapPrefix(DefinitionId, xs, i);
    if Clashes(datasets, xs[i]) {
      ClashIsInconsistent(datasets, xs, i);
    } else {
      ConsistentStep(datasets, xs, i);
    }
  }

  lemma {:induction false} ClashIsInconsistent(datasets: map<string, Option<Dataset>>, xs: seq<Definition>, i: nat)
    requires i < |xs| && Knows(datasets, xs[..i]) && Clashes(datasets, xs[i])
    ensures !DatasetsConsistent(xs)
  {
    var s := xs[..i];
    var shas := Map(DatasetSha, s);
    assert DatasetSha(xs[i]) in Members(shas);
    var k :| 0 <= k < |shas| && shas[k] == DatasetSha(xs[i]);
    assert shas[k] == DatasetSha(s[k]) && s[k] == xs[k];
    assert datasets[DatasetSha(s[k])] == s[k].dataset;
  }

  lemma {:induction false} ConsistentStep(datasets: map<string, Option<Dataset>>, xs: seq<Definition>, i: nat)
    requires i < |xs| && Knows(datasets, xs[..i]) && DatasetsConsistent(xs[..i]) && !Clashes(datasets, xs[i])
    ensures DatasetsConsistent(xs[..i+1]) && Knows(datasets[DatasetSha(xs[i]) := xs[i].dataset], xs[..i+1])
  {
    var s, t, x := xs[..i], xs[..i+1], xs[i];
    assert t == s + [x];
    MapSnoc(DatasetSha, s, x);
    MembersSnoc(Map(DatasetSha, s), DatasetSha(x));
    KnowsStep(datasets, s, x);
    ConsistentSnoc(datasets, s, x);
  }

  lemma {:induction false} KnowsStep(datasets: map<string, Option<Dataset>>, s: seq<Definition>, x: Definition)
    requires Knows(datasets, s) && !Clashes(datasets, x)
    requires Members(Map(DatasetSha, s + [x])) == Members(Map(DatasetSha, s)) + {DatasetSha(x)}
    ensures Knows(datasets[DatasetSha(x) := x.dataset], s + [x])
  {
    var t, next := s + [x], datasets[DatasetSha(x) := x.dataset];
    forall k | 0 <= k < |t| ensures DatasetSha(t[k]) in next && next[DatasetSha(t[k])] == t[k].dataset {
      if k < |s| { assert t[k] == s[k]; } else { assert t[k] == x; }
    }
  }

  lemma {:induction false} ConsistentSnoc(datasets: map<string, Option<Dataset>>, s: seq<Definition>, x: Definition)
    requires Knows(datasets, s) && DatasetsConsistent(s) && !Clashes(datasets, x)
    ensures DatasetsConsistent(s + [x])
  {
    var t := s + [x];
    forall i, j | 0 <= i < j < |t| && DatasetSha(t[i]) == DatasetSha(t[j]) ensures t[i].dataset == t[j].dataset {
      assert t[i] == s[i];
      if j < |s| { assert t[j] == s[j]; } else { assert t[j] == x && DatasetSha(s[i]) in datasets; }
    }
  }

  // ----- the groups, once filled

  /** The `groups` dictionary holds the scenarios of each capacity group. */
  ghost predicate Grouped(groups: map<string, seq<Scenario>>, scenarios: seq<Scenario>) {
    && groups.Keys == GroupNamesIn(scenarios)
    && forall name :: name in groups ==> groups[name] == GroupIn(name, scenarios)
  }

  method FillGroups(scenarios: seq<Scenario>) returns (groups: map<string, seq<Scenario>>)
    ensures Grouped(groups, scenarios)
  {
    groups := map[];
    assert scenarios[..0] == [];
    for i := 0 to |scenarios|
      invariant Grouped(groups, scenarios[..i])
    {
      var s := scenarios[i];
      GroupedStep(groups, scenarios, i);
      groups := groups[s.capacityGroup := (if s.capacityGroup in groups then groups[s.capacityGroup] else []) + [s]];
    }
    assert scenarios[..|scenarios|] == scenarios;
  }

  lemma {:induction false} GroupedStep(groups: map<string, seq<Scenario>>, scenarios: seq<Scenario>, i: nat)
    requires i < |scenarios| && Grouped(groups, scenarios[..i])
    ensures var s := scenarios[i];
      Grouped(groups[s.capacityGroup := (if s.capacityGroup in groups then groups[s.capacityGroup] else []) + [s]],
              scenarios[..i+1])
  {
    var s, before := scenarios[i], scenarios[..i];
    var next := groups[s.capacityGroup := (if s.capacityGroup in groups then groups[s.capacityGroup] else []) + [s]];
    assert scenarios[..i+1] == before + [s];
    NamesSnoc(before, s);
    if s.capacityGroup !in groups { EmptyGroup(s.capacityGroup, before); }
    forall name | name in next ensures next[name] == GroupIn(name, before + [s]) {
      FilterSnoc(GroupIs(name), before, s);
    }
  }

  lemma {:induction false} NamesSnoc(scenarios: seq<Scenario>, s: Scenario)
    ensures GroupNamesIn(scenarios + [s]) == GroupNamesIn(scenarios) + {s.capacityGroup}
  {
    var t := scenarios + [s];
    forall name | name in GroupNamesIn(scenarios) ensures name in GroupNamesIn(t) {
      var i :| 0 <= i < |scenarios| && scenarios[i].capacityGroup == name;
      assert t[i].capacityGroup == name;
    }
    assert t[|scenarios|] == s;
  }

  lemma {:induction false} EmptyGroup(name: string, scenarios: seq<Scenario>)
    requires name !in GroupNamesIn(scenarios)
    ensures GroupIn(name, scenarios) == []
  {
    forall i | 0 <= i < |scenarios| ensures !GroupIs(name)(scenarios[i]) {
      assert scenarios[i].capacityGroup in GroupNamesIn(scenarios);
    }
    FilterNone(GroupIs(name), scenarios);
  }

  /** The loop over the groups. */
  method CheckEach(nodeCounts: set<int>, groups: seq<seq<Scenario>>) returns (ok: bool)
    ensures ok <==> forall k :: 0 <= k < |groups| ==> PointsValid(nodeCounts, groups[k])
  {
    for i := 0 to |groups|
      invariant forall k :: 0 <= k < i ==> PointsValid(nodeCounts, groups[k])
    {
      ok := CheckGroup(nodeCounts, SortByScale(groups[i]));
      assert ok == PointsValid(nodeCounts, groups[i]);
      if !ok { return; }
    }
    ok := true;
  }

  function GroupOf(scenarios: seq<Scenario>): string -> seq<Scenario> {
    (name: string) => GroupIn(name, scenarios)
  }

  /** The groups one after the other. */
  method ListGroups(groups: map<string, seq<Scenario>>, ghost f: string -> seq<Scenario>, names: seq<string>)
    returns (lists: seq<seq<Scenario>>)
    requires forall k :: 0 <= k < |names| ==> names[k] in groups && groups[names[k]] == f(names[k])
    ensures lists == Map(f, names)
  {
    lists := [];
    for i := 0 to |names|
      invariant |lists| == i && forall k :: 0 <= k < i ==> lists[k] == f(names[k])
    {
      lists := lists + [groups[names[i]]];
    }
  }

  lemma {:induction false} NamesGrouped(
      groups: map<string, seq<Scenario>>, scenarios: seq<Scenario>, names: seq<string>)
    requires Grouped(groups, scenarios) && forall name :: name in names ==> name in groups
    ensures forall k :: 0 <= k < |names| ==> names[k] in groups && groups[names[k]] == GroupOf(scenarios)(names[k])
  {
    forall k | 0 <= k < |names| ensures names[k] in groups && groups[names[k]] == GroupOf(scenarios)(names[k]) {
      assert names[k] in names;
    }
  }

  method CheckGroups(nodeCounts: set<int>, scenarios: seq<Scenario>) returns (ok: bool)
    ensures ok <==> GroupsValid(nodeCounts, scenarios)
  {
    var groups := FillGroups(scenarios);
    var names := SortedSet(groups.Keys);
    NamesGrouped(groups, scenarios, names);
    var lists := ListGroups(groups, GroupOf(scenarios), names);
    ok := CheckEach(nodeCounts, lists);
    ListsAreGroups(nodeCounts, scenarios, GroupNamesIn(scenarios), names, lists);
  }

  lemma {:induction false} ListsAreGroups(
      nodeCounts: set<int>, scenarios: seq<Scenario>, members: set<string>, names: seq<string>,
      lists: seq<seq<Scenario>>)
    requires lists == Map(GroupOf(scenarios), names) && forall name :: name in members <==> name in names
    ensures (forall k :: 0 <= k < |lists| ==> PointsValid(nodeCounts, lists[k]))
      <==> forall name :: name in members ==> PointsValid(nodeCounts, GroupIn(name, scenarios))
  {
    assert forall k :: 0 <= k < |names| ==> names[k] in members && lists[k] == GroupIn(names[k], scenarios);
    if forall k :: 0 <= k < |lists| ==> PointsValid(nodeCounts, lists[k]) {
      forall name | name in members ensures PointsValid(nodeCounts, GroupIn(name, scenarios)) {
        var k :| 0 <= k < |names| && names[k] == name;
      }
    }
  }

  /** The checks after the loop over the definitions. */
  method CheckMatrix(policy: Policy, shas: set<string>, scenarios: seq<Scenario>) returns (ok: bool)
    ensures ok <==> MatrixValid(policy, shas, scenarios)
  {
    ok := CheckGroups(policy.nodeCounts, scenarios);
    if !ok || |shas| < policy.distinctDatasets { return false; }
    ok := policy.concurrencyLevels <= ClientLevels(scenarios);
  }

  method BuildPlan(d: Digests, q: Order, xs: seq<Definition>) returns (plan: Option<Plan>)
    ensures plan.Some? <==> Plannable(d, q, xs)
    ensures plan.Some? ==> plan.value == PlanOf(d, q, xs)
  {
    if !OrderValid(q) { return None; }
    var policy := q.inventory.policy;
    var planner, test := Planner(d, q.partitionCount), DefinitionTest(policy, q.jenaImageSha256.Some?);
    var ok, scenarios, datasets := PlanScenarios(planner, test, xs);
    if !ok { return None; }
    ok := CheckMatrix(policy, datasets.Keys, scenarios);
    if !ok { return None; }
    return Some(PlanWith(d, q, scenarios));
  }

  // ----- what a built plan promises the worker and the merger

  lemma {:induction false} PlannedOrigin(d: Digests, q: Order, xs: seq<Definition>, s: Scenario) returns (i: nat)
    requires q.partitionCount > 0 && s in PlanOf(d, q, xs).scenarios
    ensures i < |xs| && s == ScenarioOf(d, q.partitionCount, xs[i])
  {
    var all := Map(Planner(d, q.partitionCount), xs);
    SameMembers(SortScenarios(all), all);
    i :| 0 <= i < |all| && all[i] == s;
  }

  lemma {:induction false} PlannedIdsDistinct(d: Digests, q: Order, xs: seq<Definition>)
    requires q.partitionCount > 0 && Distinct(Map(DefinitionId, xs))
    ensures IdsDistinct(PlanOf(d, q, xs))
  {
    var all := Map(Planner(d, q.partitionCount), xs);
    assert Map(ScenarioId, all) == Map(DefinitionId, xs);
    MapPermutation(ScenarioId, all, SortScenarios(all));
    DistinctPermutation(Map(ScenarioId, all), Map(ScenarioId, SortScenarios(all)));
  }

  /** Identifiers are unique, partitions exist, and no trial count is below the policy. */
  lemma {:induction false} BuiltPlanIsSound(d: Digests, q: Order, xs: seq<Definition>, s: Scenario)
    requires Plannable(d, q, xs) && s in PlanOf(d, q, xs).scenarios
    ensures IdsDistinct(PlanOf(d, q, xs)) && 0 <= s.partition < q.partitionCount
    ensures s.warmupTrials >= q.inventory.policy.warmupTrials && s.measuredTrials >= q.inventory.policy.measuredTrials
    ensures s.family in q.inventory.policy.baselineFamilies ==> s.requireExternalJena
  {
    PlannedIdsDistinct(d, q, xs);
    var i := PlannedOrigin(d, q, xs, s);
    assert DefinitionTest(q.inventory.policy, q.jenaImageSha256.Some?)(xs[i]);
  }

  /** Over a built plan whose policy asks for no negative number of trials, the successful workers of
      a full team pass the density test for every scenario, required engine and phase. */
  lemma {:induction false} BuiltTeamIsDense(
      d: Digests, q: Order, xs: seq<Definition>, jobs: seq<Job>, reports: seq<Report>, s: Scenario, engine: string,
      phase: string)
    requires Plannable(d, q, xs) && q.inventory.policy.warmupTrials >= 0 && q.inventory.policy.measuredTrials >= 0
    requires ProducedBy(d, PlanOf(d, q, xs), jobs, reports) && FullTeam(reports, q.partitionCount)
    requires s in PlanOf(d, q, xs).scenarios && engine in Engines(s) && IsPhase(phase)
    ensures ReportsAccepted(d, PlanOf(d, q, xs), reports)
    ensures Dense(Selected(RowsFor(RowsIn(reports), s.scenarioId), engine, phase), PlannedTrials(s, phase))
  {
    BuiltPlanIsSound(d, q, xs, s);
    FullTeamAccepted(d, PlanOf(d, q, xs), jobs, reports);
    TeamIsDense(d, PlanOf(d, q, xs), jobs, reports, s, engine, phase);
  }

  lemma {:induction false} OutcomeScenarios(rows: seq<Row>, scenarios: seq<Scenario>)
    requires Outcomes(rows, scenarios).Some?
    ensures Map(ScenarioIn, Outcomes(rows, scenarios).value) == scenarios
  {
    var outcomes := Outcomes(rows, scenarios).value;
    var back := Map(ScenarioIn, outcomes);
    forall i | 0 <= i < |scenarios| ensures back[i] == scenarios[i] {
      assert Summarizer(rows)(scenarios[i]) == Some(outcomes[i]);
      OutcomePair(RowsFor(rows, scenarios[i].scenarioId), scenarios[i]);
    }
    assert back == scenarios;
  }

  /** The scale ordinals of a group's outcomes are those of its planned scenarios. */
  lemma {:induction false} GroupScales(name: string, outcomes: seq<Outcome>)
    ensures Map(ScaleOf, GroupPoints(name, outcomes)) == Map(ScaleIn, GroupIn(name, Map(ScenarioIn, outcomes)))
  {
    FilterMap(GroupIs(name), ScenarioIn, outcomes);
    var points := GroupPoints(name, outcomes);
    assert Map(ScaleIn, Map(ScenarioIn, points)) == Map(ScaleOf, points);
  }

  lemma {:induction false} DenseIfIndices(points: seq<Outcome>, n: nat)
    requires multiset(Map(ScaleOf, points)) == multiset(Indices(n))
    ensures DenseScale(points)
  {
    var sorted := SortPoints(points);
    var scales := Map(ScaleOf, sorted);
    MapPermutation(ScaleOf, sorted, points);
    SameMembers(Map(ScaleOf, points), Indices(n));
    forall i, j | 0 <= i < j < |scales| ensures IntLe(scales[i], scales[j]) {
      assert ScaleLe(sorted[i], sorted[j]);
    }
    SortedUnique(scales, Indices(n), IntLe);
  }

  lemma {:induction false} NameKept(a: seq<Scenario>, b: seq<Scenario>, name: string)
    requires multiset(a) == multiset(b) && name in GroupNamesIn(a)
    ensures name in GroupNamesIn(b)
  {
    SameMembers(a, b);
    var i :| 0 <= i < |a| && a[i].capacityGroup == name;
    assert a[i] in b;
    var j :| 0 <= j < |b| && b[j] == a[i];
    assert b[j].capacityGroup == name;
  }

  lemma {:induction false} ValidGroupScales(nodeCounts: set<int>, points: seq<Scenario>)
    requires PointsValid(nodeCounts, points)
    ensures multiset(Map(ScaleIn, points)) == multiset(Indices(|points|))
  {
    MapPermutation(ScaleIn, points, SortByScale(points));
  }

  /** The merger's own density test on capacity groups can never refuse a built plan. */
  lemma {:induction false} BuiltGroupsAreDense(d: Digests, q: Order, xs: seq<Definition>, rows: seq<Row>, name: string)
    requires Plannable(d, q, xs) && Outcomes(rows, PlanOf(d, q, xs).scenarios).Some?
    requires name in GroupNames(Outcomes(rows, PlanOf(d, q, xs).scenarios).value)
    ensures DenseScale(GroupPoints(name, Outcomes(rows, PlanOf(d, q, xs).scenarios).value))
  {
    var outcomes, planned := Outcomes(rows, PlanOf(d, q, xs).scenarios).value, PlanOf(d, q, xs).scenarios;
    var all := Map(Planner(d, q.partitionCount), xs);
    OutcomeScenarios(rows, planned);
    GroupScales(name, outcomes);
    NamePlanned(outcomes, planned, name);
    NameKept(planned, all, name);
    FilterPermutation(GroupIs(name), all, planned);
    MapPermutation(ScaleIn, GroupIn(name, all), GroupIn(name, planned));
    ValidGroupScales(q.inventory.policy.nodeCounts, GroupIn(name, all));
    DenseIfIndices(GroupPoints(name, outcomes), |GroupIn(name, all)|);
  }

  lemma {:induction false} NamePlanned(outcomes: seq<Outcome>, planned: seq<Scenario>, name: string)
    requires Map(ScenarioIn, outcomes) == planned && name in GroupNames(outcomes)
    ensures name in GroupNamesIn(planned)
  {
    var i :| 0 <= i < |outcomes| && outcomes[i].scenario.capacityGroup == name;
    assert planned[i] == ScenarioIn(outcomes[i]);
  }
}
