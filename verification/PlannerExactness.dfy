/** Exactly which definitions the three planners accept, and what of them reaches the plan. */
module PlannerExactness {
  import opened HexSha
  import opened Options
  import opened Sorting
  import opened Sequences
  import opened Loops
  import opened Partitions
  import opened IntegerStatistics
  import opened PerformanceDensity
  import opened PerformanceGates
  import S = StandardsPlan
  import Run = PerformanceRun
  import M = PerformanceMerge
  import P = PerformancePlan
  import R = ReleasePlan

  // ----- phase 40.13.22

  /** A case has an oracle, and ends in success without an error class or in failure with one. */
  predicate StandardsCase(x: S.Definition) {
    && x.Definition? && (x.oracle == "w3c-expected" || x.oracle == "apache-jena" || x.oracle == "hermit")
    && ((x.expectedOutcome == "success" && x.expectedErrorClass == None)
        || (x.expectedOutcome == "failure" && x.expectedErrorClass.Some? && x.expectedErrorClass != Some("")))
  }

  lemma {:induction false} StandardsExactly(xs: seq<S.Definition>)
    ensures S.DefinitionsValid(xs) <==>
      && (forall i :: 0 <= i < |xs| ==> StandardsCase(xs[i]))
      && forall i, j :: 0 <= i < j < |xs| && xs[i].Definition? && xs[j].Definition? ==> xs[i].caseId != xs[j].caseId
  {
    forall i | 0 <= i < |xs| ensures S.DefinitionValid(xs[i]) <==> StandardsCase(xs[i]) {
    }
  }

  // ----- phase 40.13.24

  /** The evidence of a cross-domain context graph that equals its oracle. */
  predicate SemanticEvidence(s: R.Semantic) {
    && (forall i :: 0 <= i < |s.identities| ==> IsSha(s.identities[i]))
    && IsSha(s.scalarOracleGraphSha256) && s.scalarOracleGraphSha256 == s.resultGraphSha256
    && s.complete && s.proofCoverage == "complete" && (s.queryForm == "CONSTRUCT" || s.queryForm == "DESCRIBE")
    && 3 <= s.domainCount && 2 <= s.hopCount && 1 <= s.reasonedOutputTriples
    && 2 <= s.activatedNodes && 2000 <= s.activatedCpuMillis && 1 <= s.activatedMemoryBytes
  }

  /** What the release planner asks of everything but the scenarios. */
  predicate ReleaseRequest(q: R.Request) {
    && 0 < q.partitionCount < 65537 && IsSha(q.releaseSha256) && q.headerValid
    && q.inventory.providers == R.PROVIDERS && q.inventory.gates == R.GATES
    && q.inventory.cpuPercent == q.inventory.memoryPercent == 80 && 3 <= q.inventory.workerNodes
    && q.performance.complete && q.performance.failedThresholdCount == 0
    && SemanticEvidence(q.semantic)
  }

  /** A gate that disturbs the cluster needs approval evidence, and any other has none. */
  predicate Disturbs(gate: string) {
    || gate == "compute-chaos" || gate == "network-chaos" || gate == "storage-chaos"
    || gate == "upgrade" || gate == "rollback" || gate == "backup-restore"
  }

  predicate ReleaseScenario(soakSeconds: int, x: R.Definition) {
    && x.closed && x.provider in R.PROVIDERS && x.gate in R.GATES && IsSha(x.expectedOutputSha256)
    && (if Disturbs(x.gate) then x.disruptive && x.approvalEvidenceSha256.Some? && IsSha(x.approvalEvidenceSha256.value)
        else !x.disruptive && x.approvalEvidenceSha256.None?)
    && 3 <= x.minimumNodes && 3000 <= x.minimumCpuMillis && 1 <= x.minimumMemoryBytes
    && (x.gate == "multinode-soak" ==> soakSeconds <= x.minimumDurationSeconds)
  }

  ghost predicate AskedOf(xs: seq<R.Definition>, provider: string, gate: string) {
    exists i :: 0 <= i < |xs| && xs[i].provider == provider && xs[i].gate == gate
  }

  lemma {:induction false} CoverageExactly(xs: seq<R.Definition>)
    requires forall i :: 0 <= i < |xs| ==> xs[i].provider in R.PROVIDERS && xs[i].gate in R.GATES
    ensures R.Covers(xs) <==> forall p, g :: p in R.PROVIDERS && g in R.GATES ==> AskedOf(xs, p, g)
  {
    var pairs := Map(R.PairOf, xs);
    assert forall i :: 0 <= i < |xs| ==> pairs[i] == (xs[i].provider, xs[i].gate) && pairs[i] in Members(pairs);
    if R.Covers(xs) {
      forall p, g | p in R.PROVIDERS && g in R.GATES ensures AskedOf(xs, p, g) {
        assert (p, g) in R.Pairs(R.PROVIDER_NAMES, R.GATE_NAMES);
        assert (p, g) in Members(pairs);
        var i :| 0 <= i < |pairs| && pairs[i] == (p, g);
        assert xs[i].provider == p && xs[i].gate == g;
      }
    }
    if forall p, g :: p in R.PROVIDERS && g in R.GATES ==> AskedOf(xs, p, g) {
      forall x: (string, string) ensures x in Members(pairs) <==> x in R.Pairs(R.PROVIDER_NAMES, R.GATE_NAMES) {
        if x.0 in R.PROVIDERS && x.1 in R.GATES {
          assert AskedOf(xs, x.0, x.1);
          var i :| 0 <= i < |xs| && xs[i].provider == x.0 && xs[i].gate == x.1;
          assert pairs[i] == x;
        }
        if x in Members(pairs) {
          var i :| 0 <= i < |pairs| && pairs[i] == x;
        }
      }
    }
  }

  lemma {:induction false} ReleaseDefinitions(soakSeconds: int, xs: seq<R.Definition>)
    ensures R.DefinitionsValid(soakSeconds, xs) <==>
      && (forall i :: 0 <= i < |xs| ==> ReleaseScenario(soakSeconds, xs[i]))
      && forall i, j :: 0 <= i < j < |xs| ==> xs[i].scenarioId != xs[j].scenarioId
  {
    var ids := Map(R.DefinitionId, xs);
    assert forall i :: 0 <= i < |xs| ==> ids[i] == xs[i].scenarioId;
    forall i | 0 <= i < |xs| ensures R.DefinitionTest(soakSeconds)(xs[i]) <==> ReleaseScenario(soakSeconds, xs[i]) {
      assert Disturbs(xs[i].gate) <==> xs[i].gate in R.DISRUPTIVE;
    }
  }

  /** The release planner accepts exactly good requests with good, differently named scenarios that ask every
      gate of every provider. */
  lemma {:induction false} ReleaseExactly(q: R.Request, xs: seq<R.Definition>)
    ensures R.Plannable(q, xs) <==>
      && ReleaseRequest(q)
      && (forall i :: 0 <= i < |xs| ==> ReleaseScenario(q.inventory.soakSeconds, xs[i]))
      && (forall i, j :: 0 <= i < j < |xs| ==> xs[i].scenarioId != xs[j].scenarioId)
      && forall p, g :: p in R.PROVIDERS && g in R.GATES ==> AskedOf(xs, p, g)
  {
    ReleaseDefinitions(q.inventory.soakSeconds, xs);
    if forall i :: 0 <= i < |xs| ==> ReleaseScenario(q.inventory.soakSeconds, xs[i]) {
      CoverageExactly(xs);
    }
  }

  // ----- phase 40.13.23

  /** What the performance planner asks of everything but the scenarios. */
  predicate PerformanceOrder(q: P.Order) {
    && 0 < q.partitionCount < 65537 && IsSha(q.ngkgImageSha256)
    && (q.jenaImageSha256 == None || IsSha(q.jenaImageSha256.value))
    && q.headerClosed && q.autoscaling.complete && q.autoscaling.targetPercent == 80
    && q.hardware.closed && q.hardware.complete && q.hardware.formatVersion == 1 && q.hardware.cgroupVersion == 2
    && q.pricing.closed && q.pricing.complete && q.pricing.formatVersion == 1
    && q.pricing.currency == "USD" && IsSha(q.pricing.sourceUrlSha256)
  }

  /** A qualified dataset that is large enough. */
  predicate LargeDataset(policy: Run.Policy, x: P.Dataset, paths: bool) {
    && x.closed && IsSha(x.sha256) && IsSha(x.snapshotSha256) && x.owl2DlQualified && x.pinnedImports && x.provenance
    && policy.datasetBytes <= x.bytes && policy.namedGraphs <= x.namedGraphs && policy.triples <= x.triples
    && (paths ==> policy.pathEdges <= x.propertyPathEdges)
  }

  predicate PerformanceScenario(policy: Run.Policy, hasJena: bool, x: P.Definition) {
    && x.closed && x.settings.family in P.FAMILIES && IsSha(x.settings.expectedResultSha256)
    && (x.settings.requireExternalJena ==> hasJena)
    && (x.settings.family in policy.baselineFamilies ==> x.settings.requireExternalJena)
    && policy.warmupTrials <= x.settings.warmupTrials && policy.measuredTrials <= x.settings.measuredTrials
    && 1 <= x.settings.concurrency
    && x.dataset.Some? && LargeDataset(policy, x.dataset.value, x.settings.family == "property-path")
  }

  lemma {:induction false} PerformanceDefinitions(policy: Run.Policy, hasJena: bool, xs: seq<P.Definition>)
    ensures P.DefinitionsValid(policy, hasJena, xs) <==> GoodScenarios(policy, hasJena, xs)
  {
    var ids := Map(P.DefinitionId, xs);
    assert forall i :: 0 <= i < |xs| ==> ids[i] == xs[i].settings.scenarioId;
    forall i | 0 <= i < |xs|
      ensures P.DefinitionTest(policy, hasJena)(xs[i]) <==> PerformanceScenario(policy, hasJena, xs[i])
    {
    }
    if forall i :: 0 <= i < |xs| ==> xs[i].dataset.Some? {
      DescriptionsExactly(xs);
    }
  }

  /** One dataset digest never carries two descriptions. */
  ghost predicate OneDescription(xs: seq<P.Definition>) {
    forall i, j :: SameDigest(xs, i, j) ==> xs[i].dataset == xs[j].dataset
  }

  ghost predicate SameDigest(xs: seq<P.Definition>, i: int, j: int) {
    && 0 <= i < |xs| && 0 <= j < |xs| && xs[i].dataset.Some? && xs[j].dataset.Some?
    && xs[i].dataset.value.sha256 == xs[j].dataset.value.sha256
  }

  lemma {:induction false} DescriptionsExactly(xs: seq<P.Definition>)
    requires forall i :: 0 <= i < |xs| ==> xs[i].dataset.Some?
    ensures P.DatasetsConsistent(xs) <==> OneDescription(xs)
  {
    if P.DatasetsConsistent(xs) {
      forall i, j | SameDigest(xs, i, j)
        ensures xs[i].dataset == xs[j].dataset
      {
        if i < j { assert P.DatasetSha(xs[i]) == P.DatasetSha(xs[j]); }
        if j < i { assert P.DatasetSha(xs[j]) == P.DatasetSha(xs[i]); }
      }
    }
    if OneDescription(xs) {
      forall i, j | 0 <= i < j < |xs| && P.DatasetSha(xs[i]) == P.DatasetSha(xs[j])
        ensures xs[i].dataset == xs[j].dataset
      {
        assert SameDigest(xs, i, j);
      }
    }
  }

  // ----- capacity groups of scenarios

  ghost predicate ScalePresent(points: seq<Run.Scenario>, n: int) {
    exists s :: s in points && s.scaleOrdinal == n
  }

  ghost predicate NodesPresent(points: seq<Run.Scenario>, n: int) {
    exists s :: s in points && s.requestedNodes == n
  }

  /** The scales are 0, 1, ..., n - 1; a larger scale has more of every resource; the meaning is one; and every
      required node count occurs. */
  ghost predicate GoodGroup(nodeCounts: set<int>, points: seq<Run.Scenario>) {
    && (forall n :: 0 <= n < |points| ==> ScalePresent(points, n))
    && Grows(points) && OneMeaning(points)
    && forall n :: n in nodeCounts ==> NodesPresent(points, n)
  }

  ghost predicate Grows(points: seq<Run.Scenario>) {
    forall a, b :: a in points && b in points && a.scaleOrdinal < b.scaleOrdinal ==>
      && a.requestedNodes < b.requestedNodes && a.requestedCpuMillis < b.requestedCpuMillis
      && a.requestedMemoryBytes < b.requestedMemoryBytes
  }

  ghost predicate OneMeaning(points: seq<Run.Scenario>) {
    forall a, b :: a in points && b in points ==>
      a.family == b.family && a.expectedResultSha256 == b.expectedResultSha256
  }

  lemma {:induction false} ScalesSorted(points: seq<Run.Scenario>)
    ensures Map(P.ScaleIn, P.SortByScale(points)) == Sorted(Map(P.ScaleIn, points))
  {
    var a, b := Map(P.ScaleIn, P.SortByScale(points)), Sorted(Map(P.ScaleIn, points));
    MapPermutation(P.ScaleIn, P.SortByScale(points), points);
    assert SortedBy(a, IntLe) by {
      forall i, j | 0 <= i < j < |a| ensures IntLe(a[i], a[j]) {
        assert P.ScenarioScaleLe(P.SortByScale(points)[i], P.SortByScale(points)[j]);
      }
    }
    SortedUnique(a, b, IntLe);
  }

  lemma {:induction false} ScalesExactly(points: seq<Run.Scenario>)
    ensures Map(P.ScaleIn, P.SortByScale(points)) == Run.Indices(|points|) <==>
      forall n :: 0 <= n < |points| ==> ScalePresent(points, n)
  {
    var scales := Map(P.ScaleIn, points);
    ScalesSorted(points);
    SortedRange(scales);
    forall n ensures n in scales <==> ScalePresent(points, n) {
      if n in scales {
        var i :| 0 <= i < |scales| && scales[i] == n;
        assert points[i] in points && points[i].scaleOrdinal == n;
      }
      if s :| s in points && s.scaleOrdinal == n {
        var i :| 0 <= i < |points| && points[i] == s;
        assert scales[i] == n;
      }
    }
  }

  lemma {:induction false} NodesExactly(nodeCounts: set<int>, points: seq<Run.Scenario>)
    ensures nodeCounts <= Members(Map(P.NodesIn, P.SortByScale(points))) <==>
      forall n :: n in nodeCounts ==> NodesPresent(points, n)
  {
    var sorted := P.SortByScale(points);
    SameMembers(sorted, points);
    forall n ensures n in Members(Map(P.NodesIn, sorted)) <==> NodesPresent(points, n) {
      NodesListed(points, sorted, n);
    }
    if forall n :: n in nodeCounts ==> NodesPresent(points, n) {
      forall n | n in nodeCounts ensures n in Members(Map(P.NodesIn, sorted)) { assert NodesPresent(points, n); }
    }
  }

  lemma {:induction false} NodesListed(points: seq<Run.Scenario>, sorted: seq<Run.Scenario>, n: int)
    requires forall s :: s in sorted <==> s in points
    ensures n in Map(P.NodesIn, sorted) <==> NodesPresent(points, n)
  {
    MapMember(P.NodesIn, sorted, n);
  }

  /** In a dense group the scenario with scale `n` is the one at place `n`. */
  lemma {:induction false} PlaceOf(points: seq<Run.Scenario>, s: Run.Scenario)
    requires Map(P.ScaleIn, P.SortByScale(points)) == Run.Indices(|points|) && s in points
    ensures 0 <= s.scaleOrdinal < |points| && P.SortByScale(points)[s.scaleOrdinal] == s
  {
    var sorted := P.SortByScale(points);
    SameMembers(sorted, points);
    assert s in sorted;
    var k :| 0 <= k < |sorted| && sorted[k] == s;
    assert Map(P.ScaleIn, sorted)[k] == k;
  }

  lemma {:induction false} GrowthExactly(points: seq<Run.Scenario>)
    requires Map(P.ScaleIn, P.SortByScale(points)) == Run.Indices(|points|)
    ensures P.Growing(P.SortByScale(points), |points|) <==> Grows(points)
  {
    var sorted := P.SortByScale(points);
    SameMembers(sorted, points);
    forall s | s in points ensures 0 <= s.scaleOrdinal < |points| && sorted[s.scaleOrdinal] == s { PlaceOf(points, s); }
    forall i | 0 <= i < |points| ensures sorted[i] in points && sorted[i].scaleOrdinal == i {
      assert Map(P.ScaleIn, sorted)[i] == i;
    }
  }

  lemma {:induction false} MeaningExactly(points: seq<Run.Scenario>)
    ensures P.Steady(P.SortByScale(points), |points|) <==> OneMeaning(points)
  {
    var sorted := P.SortByScale(points);
    SameMembers(sorted, points);
    assert forall i :: 0 <= i < |points| ==> sorted[i] in points;
    if P.Steady(sorted, |points|) {
      forall a, b | a in points && b in points ensures P.SameMeaning(a, b) {
        assert a in sorted && b in sorted;
        var i :| 0 <= i < |sorted| && sorted[i] == a;
        var j :| 0 <= j < |sorted| && sorted[j] == b;
        assert P.SameMeaning(sorted[i], sorted[0]) && P.SameMeaning(sorted[j], sorted[0]);
      }
    }
  }

  /** The planner's check of a group, which sorts it and compares neighbours, decides whether it is good. */
  lemma {:induction false} GroupExactly(nodeCounts: set<int>, points: seq<Run.Scenario>)
    ensures P.PointsValid(nodeCounts, points) <==> GoodGroup(nodeCounts, points)
  {
    ScalesExactly(points);
    NodesExactly(nodeCounts, points);
    MeaningExactly(points);
    if Map(P.ScaleIn, P.SortByScale(points)) == Run.Indices(|points|) { GrowthExactly(points); }
  }

  /** A capacity group holds exactly the scenarios that name it. */
  lemma {:induction false} GroupHolds(name: string, scenarios: seq<Run.Scenario>, s: Run.Scenario)
    ensures s in P.GroupIn(name, scenarios) <==> s in scenarios && s.capacityGroup == name
  {
    if s in P.GroupIn(name, scenarios) {
      var i :| 0 <= i < |P.GroupIn(name, scenarios)| && P.GroupIn(name, scenarios)[i] == s;
      var k := FilterFound(M.GroupIs(name), scenarios, i);
    }
    if s in scenarios && s.capacityGroup == name {
      var i :| 0 <= i < |scenarios| && scenarios[i] == s;
      var k := FilterKept(M.GroupIs(name), scenarios, i);
    }
  }

  ghost predicate GroupsAreGood(nodeCounts: set<int>, scenarios: seq<Run.Scenario>) {
    forall s :: s in scenarios ==> GoodGroup(nodeCounts, P.GroupIn(s.capacityGroup, scenarios))
  }

  lemma {:induction false} GroupsExactly(nodeCounts: set<int>, scenarios: seq<Run.Scenario>)
    ensures P.GroupsValid(nodeCounts, scenarios) <==> GroupsAreGood(nodeCounts, scenarios)
  {
    forall name ensures P.PointsValid(nodeCounts, P.GroupIn(name, scenarios))
      <==> GoodGroup(nodeCounts, P.GroupIn(name, scenarios))
    {
      GroupExactly(nodeCounts, P.GroupIn(name, scenarios));
    }
    forall name ensures name in P.GroupNamesIn(scenarios) <==> exists s :: s in scenarios && s.capacityGroup == name {
      if s :| s in scenarios && s.capacityGroup == name {
        var i :| 0 <= i < |scenarios| && scenarios[i] == s;
        assert scenarios[i].capacityGroup == name;
      }
    }
  }

  /** Some scenario asks for `n` concurrent clients. */
  ghost predicate AsksClients(scenarios: seq<Run.Scenario>, n: int) {
    exists s :: s in scenarios && s.family == "concurrent-sparql" && s.concurrency == n
  }

  lemma {:induction false} ClientsExactly(scenarios: seq<Run.Scenario>, n: int)
    ensures n in P.ClientLevels(scenarios) <==> AsksClients(scenarios, n)
  {
    var asking := Filter(M.FamilyTest("concurrent-sparql"), scenarios);
    MapMember(M.ConcurrencyOf, asking, n);
    if s :| s in asking && M.ConcurrencyOf(s) == n {
      var i :| 0 <= i < |asking| && asking[i] == s;
      var k := FilterFound(M.FamilyTest("concurrent-sparql"), scenarios, i);
      assert scenarios[k] in scenarios && scenarios[k].concurrency == n;
    }
    if s :| s in scenarios && s.family == "concurrent-sparql" && s.concurrency == n {
      var i :| 0 <= i < |scenarios| && scenarios[i] == s;
      var k := FilterKept(M.FamilyTest("concurrent-sparql"), scenarios, i);
      assert asking[k] in asking && M.ConcurrencyOf(asking[k]) == n;
    }
  }

  /** The whole matrix of planned scenarios is good. */
  ghost predicate GoodMatrix(policy: Run.Policy, scenarios: seq<Run.Scenario>) {
    && GroupsAreGood(policy.nodeCounts, scenarios)
    && forall n :: n in policy.concurrencyLevels ==> AsksClients(scenarios, n)
  }

  lemma {:induction false} MatrixExactly(policy: Run.Policy, shas: set<string>, scenarios: seq<Run.Scenario>)
    ensures P.MatrixValid(policy, shas, scenarios) <==>
      GoodMatrix(policy, scenarios) && policy.distinctDatasets <= |shas|
  {
    GroupsExactly(policy.nodeCounts, scenarios);
    forall n ensures n in P.ClientLevels(scenarios) <==> AsksClients(scenarios, n) { ClientsExactly(scenarios, n); }
    if GoodMatrix(policy, scenarios) {
      forall n | n in policy.concurrencyLevels ensures n in P.ClientLevels(scenarios) {
        assert AsksClients(scenarios, n);
      }
    }
  }

  /** The scenarios by themselves are good, differently named, and describe each dataset in one way. */
  ghost predicate GoodScenarios(policy: Run.Policy, hasJena: bool, xs: seq<P.Definition>) {
    && (forall i :: 0 <= i < |xs| ==> PerformanceScenario(policy, hasJena, xs[i]))
    && (forall i, j :: 0 <= i < j < |xs| ==> xs[i].settings.scenarioId != xs[j].settings.scenarioId)
    && OneDescription(xs)
  }

  ghost function Datasets(xs: seq<P.Definition>): set<string> {
    set i | 0 <= i < |xs| && xs[i].dataset.Some? :: xs[i].dataset.value.sha256
  }

  lemma {:induction false} DatasetsKnown(policy: Run.Policy, hasJena: bool, xs: seq<P.Definition>)
    requires GoodScenarios(policy, hasJena, xs)
    ensures Members(Map(P.DatasetSha, xs)) == Datasets(xs)
  {
    var shas := Map(P.DatasetSha, xs);
    forall i | 0 <= i < |xs| ensures xs[i].dataset.Some? && shas[i] == xs[i].dataset.value.sha256 {
      assert PerformanceScenario(policy, hasJena, xs[i]);
    }
  }

  /** The performance planner accepts exactly good orders of good scenarios over enough datasets, in which every
      capacity group is good and every client level is asked for. */
  lemma {:induction false} PerformanceExactly(d: Run.Digests, q: P.Order, xs: seq<P.Definition>)
    ensures P.Plannable(d, q, xs) <==>
      && PerformanceOrder(q) && GoodScenarios(q.inventory.policy, q.jenaImageSha256.Some?, xs)
      && GoodMatrix(q.inventory.policy, Map(P.Planner(d, q.partitionCount), xs))
      && q.inventory.policy.distinctDatasets <= |Datasets(xs)|
  {
    var policy, hasJena := q.inventory.policy, q.jenaImageSha256.Some?;
    PerformanceDefinitions(policy, hasJena, xs);
    assert P.OrderValid(q) <==> PerformanceOrder(q);
    if PerformanceOrder(q) && GoodScenarios(policy, hasJena, xs) {
      DatasetsKnown(policy, hasJena, xs);
      MatrixExactly(policy, Datasets(xs), Map(P.Planner(d, q.partitionCount), xs));
    }
  }

  /** The scenario is as the definition says, under the digest and the partition of the descriptor. */
  ghost predicate AsWritten(d: Run.Digests, count: PartitionCount, x: P.Definition, s: Run.Scenario) {
    && s == x.settings.(inputSha256 := s.inputSha256, partition := s.partition)
    && s.inputSha256 == d.descriptor(Some(x.descriptor))
    && s.partition == d.bucket(x.settings.scenarioId + "\0" + s.inputSha256) % count
  }

  lemma {:induction false} PlannedAsWritten(d: Run.Digests, q: P.Order, xs: seq<P.Definition>, x: P.Definition)
    returns (s: Run.Scenario)
    requires q.partitionCount > 0 && x in xs
    ensures s in P.PlanOf(d, q, xs).scenarios && AsWritten(d, q.partitionCount, x, s)
  {
    var all := Map(P.Planner(d, q.partitionCount), xs);
    var i :| 0 <= i < |xs| && xs[i] == x;
    s := all[i];
    SameMembers(P.SortScenarios(all), all);
  }

  lemma {:induction false} SameIdSameScenario(xs: seq<Run.Scenario>, a: Run.Scenario, b: Run.Scenario)
    requires Distinct(Map(ScenarioId, xs)) && a in xs && b in xs && a.scenarioId == b.scenarioId
    ensures a == b
  {
    var m :| 0 <= m < |xs| && xs[m] == a;
    var n :| 0 <= n < |xs| && xs[n] == b;
    SameIdSamePlace(xs, m, n);
  }

  /** Every definition is planned once, as it was written. */
  lemma {:induction false} DefinitionPlanned(d: Run.Digests, q: P.Order, xs: seq<P.Definition>, x: P.Definition)
    returns (s: Run.Scenario)
    requires P.Plannable(d, q, xs) && x in xs
    ensures s in P.PlanOf(d, q, xs).scenarios && AsWritten(d, q.partitionCount, x, s)
    ensures forall o :: o in P.PlanOf(d, q, xs).scenarios && o.scenarioId == x.settings.scenarioId ==> o == s
  {
    s := PlannedAsWritten(d, q, xs, x);
    P.PlannedIdsDistinct(d, q, xs);
    forall o | o in P.PlanOf(d, q, xs).scenarios && o.scenarioId == x.settings.scenarioId ensures o == s {
      SameIdSameScenario(P.PlanOf(d, q, xs).scenarios, o, s);
    }
  }

  /** The plan names the documents it was built from: a worker with the planner's inventory and pricing, and drivers
      that observe the planner's autoscaling, are the planned ones. */
  lemma {:induction false} PlanNames(d: Run.Digests, q: P.Order, xs: seq<P.Definition>)
    requires P.Plannable(d, q, xs)
    ensures var plan := P.PlanOf(d, q, xs);
      && plan.runId == q.runId && plan.partitionCount == q.partitionCount && |plan.scenarios| == |xs|
      && plan.ngkgImageSha256 == q.ngkgImageSha256 && plan.externalJenaImageSha256 == q.jenaImageSha256
      && plan.benchmarkInventorySha256 == d.inventory(q.inventory) && plan.pricingSha256 == d.pricing(q.pricing)
      && plan.hardwareSha256 == d.hardware(q.hardware)
      && plan.autoscalingEvidenceSha256 == d.autoscaling(q.autoscaling)
  {
    var all := Map(P.Planner(d, q.partitionCount), xs);
    SameMembers(P.SortScenarios(all), all);
  }
}
