/** Phase 40.13.23: exactly when the merger's claims hold, in terms of the plan and of the rows the workers
    measured. */
module PerformanceCertificate {
  import opened Options
  import opened Sorting
  import opened Sequences
  import opened Loops
  import opened IntegerStatistics
  import opened PerformanceRun
  import opened PerformanceMerge
  import opened PerformanceGates

  /** Summary `i` is that of scenario `i`. */
  ghost predicate Summaries(rows: seq<Row>, scenarios: seq<Scenario>, outcomes: seq<Outcome>) {
    && |outcomes| == |scenarios|
    && forall i :: 0 <= i < |scenarios| ==> SummaryOf(rows, scenarios[i], outcomes[i])
  }

  /** All summaries exist exactly when every scenario qualifies. */
  lemma {:induction false} OutcomesExactly(rows: seq<Row>, scenarios: seq<Scenario>)
    requires Each(Measured, rows)
    ensures Outcomes(rows, scenarios).Some? <==> AllQualify(rows, scenarios)
    ensures Outcomes(rows, scenarios).Some? ==> Summaries(rows, scenarios, Outcomes(rows, scenarios).value)
  {
    if Outcomes(rows, scenarios).Some? {
      forall i | 0 <= i < |scenarios|
        ensures Qualifies(rows, scenarios[i]) && SummaryOf(rows, scenarios[i], Outcomes(rows, scenarios).value[i])
      {
        assert Summarizer(rows)(scenarios[i]) == Some(Outcomes(rows, scenarios).value[i]);
        SummarizeExactly(rows, scenarios[i]);
        SummaryExactly(rows, scenarios[i]);
      }
    } else {
      var i :| 0 <= i < |scenarios| && Summarizer(rows)(scenarios[i]).None?;
      SummarizeExactly(rows, scenarios[i]);
      assert scenarios[i] in scenarios;
    }
  }

  // ----- the scale gates

  /** Some measured trial took in 100 GiB within the time limit. */
  ghost predicate IngestMet(rows: seq<Row>, scenarios: seq<Scenario>, seconds: int) {
    exists s, row :: s in scenarios && s.family == "trig-ingestion" && row in NgkgTrials(rows, s)
      && row.inputBytes >= 107_374_182_400 && row.durationNanoseconds <= seconds * 1_000_000_000
  }

  /** In some property-path scenario fewer than half of the trials stay under the rate. */
  ghost predicate PathsMet(rows: seq<Row>, scenarios: seq<Scenario>, rate: int) {
    exists s :: s in scenarios && s.family == "property-path" && HalfReach(NgkgTrials(rows, s), rate)
  }

  /** Fewer than half of the trials do less work than the rate. */
  ghost predicate HalfReach(rows: seq<Row>, rate: int) {
    HowManyUnder(rows, GigaItems, Nanoseconds, rate) < Rank(|rows|, 50)
  }

  ghost predicate UsersMet(scenarios: seq<Scenario>, users: int) {
    exists s :: s in scenarios && s.family == "concurrent-sparql" && s.concurrency >= users
  }

  lemma {:induction false} MeasuredAtTrials(rows: seq<Row>, s: Scenario)
    ensures MeasuredAt(rows)(s) == NgkgTrials(rows, s)
  {
    TrialsSelected(rows, s.scenarioId, NGKG, MEASURED);
  }

  lemma {:induction false} IngestExactly(rows: seq<Row>, scenarios: seq<Scenario>, gates: Gates)
    ensures Filter(IngestTest(gates), Flat(MeasuredAt(rows), Filter(FamilyTest("trig-ingestion"), scenarios))) != []
      <==> IngestMet(rows, scenarios, gates.ingestMaximumSeconds)
  {
    var mine := Filter(FamilyTest("trig-ingestion"), scenarios);
    var trials := Flat(MeasuredAt(rows), mine);
    if Filter(IngestTest(gates), trials) != [] {
      var k := FilterFound(IngestTest(gates), trials, 0);
      var m, n := FlatOrigin(MeasuredAt(rows), mine, k);
      var i := FilterFound(FamilyTest("trig-ingestion"), scenarios, m);
      MeasuredAtTrials(rows, scenarios[i]);
      assert scenarios[i] in scenarios && trials[k] in NgkgTrials(rows, scenarios[i]);
    }
    if IngestMet(rows, scenarios, gates.ingestMaximumSeconds) {
      var s, row :| s in scenarios && s.family == "trig-ingestion" && row in NgkgTrials(rows, s)
        && row.inputBytes >= 107_374_182_400 && row.durationNanoseconds <= gates.ingestMaximumSeconds * 1_000_000_000;
      var i :| 0 <= i < |scenarios| && scenarios[i] == s;
      var m := FilterKept(FamilyTest("trig-ingestion"), scenarios, i);
      MeasuredAtTrials(rows, s);
      var n :| 0 <= n < |NgkgTrials(rows, s)| && NgkgTrials(rows, s)[n] == row;
      FlatListed(MeasuredAt(rows), mine, m, n);
      var k :| 0 <= k < |trials| && trials[k] == row;
      var j := FilterKept(IngestTest(gates), trials, k);
    }
  }

  lemma {:induction false} UsersExactly(scenarios: seq<Scenario>, users: int)
    ensures var levels := Map(ConcurrencyOf, Filter(FamilyTest("concurrent-sparql"), scenarios));
      levels != [] && Max(levels) >= users <==> UsersMet(scenarios, users)
  {
    var mine := Filter(FamilyTest("concurrent-sparql"), scenarios);
    var levels := Map(ConcurrencyOf, mine);
    if levels != [] && Max(levels) >= users {
      var m :| 0 <= m < |levels| && levels[m] == Max(levels);
      var i := FilterFound(FamilyTest("concurrent-sparql"), scenarios, m);
      assert scenarios[i] in scenarios;
    }
    if s :| s in scenarios && s.family == "concurrent-sparql" && s.concurrency >= users {
      var i :| 0 <= i < |scenarios| && scenarios[i] == s;
      var m := FilterKept(FamilyTest("concurrent-sparql"), scenarios, i);
      assert levels[m] in levels && levels[m] == s.concurrency;
    }
  }

  lemma {:induction false} ThroughputReaches(rows: seq<Row>, s: Scenario, o: Outcome, rate: int)
    requires Each(Measured, rows) && SummaryOf(rows, s, o)
    ensures o.ngkg.medianThroughput >= rate <==> HalfReach(NgkgTrials(rows, s), rate)
  {
    ScenarioMeasured(rows, s);
    Positives(NgkgTrials(rows, s));
    StatsRank(NgkgTrials(rows, s), NGKG, o.ngkg);
    AtLeastExactly(NgkgTrials(rows, s), GigaItems, Nanoseconds, Rank(|NgkgTrials(rows, s)|, 50),
                   o.ngkg.medianThroughput, rate);
  }

  ghost predicate PathReaches(outcomes: seq<Outcome>, i: int, rate: int) {
    0 <= i < |outcomes| && outcomes[i].scenario.family == "property-path" && outcomes[i].ngkg.medianThroughput >= rate
  }

  lemma {:induction false} FastestPath(outcomes: seq<Outcome>, rate: int)
    ensures var paths := Map(ThroughputIn, Filter(Compose(FamilyTest("property-path"), ScenarioIn), outcomes));
      paths != [] && Max(paths) >= rate <==> exists i :: PathReaches(outcomes, i, rate)
  {
    var test := Compose(FamilyTest("property-path"), ScenarioIn);
    var paths := Map(ThroughputIn, Filter(test, outcomes));
    if paths != [] && Max(paths) >= rate {
      var m :| 0 <= m < |paths| && paths[m] == Max(paths);
      var i := FilterFound(test, outcomes, m);
      ComposeAt(FamilyTest("property-path"), ScenarioIn, outcomes[i]);
      assert PathReaches(outcomes, i, rate);
    }
    if i :| PathReaches(outcomes, i, rate) {
      ComposeAt(FamilyTest("property-path"), ScenarioIn, outcomes[i]);
      var m := FilterKept(test, outcomes, i);
      assert paths[m] in paths && paths[m] == outcomes[i].ngkg.medianThroughput;
    }
  }

  lemma {:induction false} PathsPaired(
      scenarios: seq<Scenario>, outcomes: seq<Outcome>, reach: Scenario -> bool, rate: int)
    requires |outcomes| == |scenarios|
    requires forall i :: 0 <= i < |scenarios| ==> outcomes[i].scenario == scenarios[i]
    requires forall i :: 0 <= i < |scenarios| ==> (outcomes[i].ngkg.medianThroughput >= rate <==> reach(scenarios[i]))
    ensures (exists i :: PathReaches(outcomes, i, rate)) <==>
      exists s :: s in scenarios && s.family == "property-path" && reach(s)
  {
    if i :| PathReaches(outcomes, i, rate) {
      assert scenarios[i] in scenarios;
    }
    if s :| s in scenarios && s.family == "property-path" && reach(s) {
      var i :| 0 <= i < |scenarios| && scenarios[i] == s;
      assert PathReaches(outcomes, i, rate);
    }
  }

  ghost function HalfReachAt(rows: seq<Row>, rate: int): Scenario -> bool {
    (s: Scenario) => HalfReach(NgkgTrials(rows, s), rate)
  }

  lemma {:induction false} PathsExactly(rows: seq<Row>, scenarios: seq<Scenario>, outcomes: seq<Outcome>, rate: int)
    requires Each(Measured, rows) && Summaries(rows, scenarios, outcomes)
    ensures (exists i :: PathReaches(outcomes, i, rate)) <==> PathsMet(rows, scenarios, rate)
  {
    var reach := HalfReachAt(rows, rate);
    forall i | 0 <= i < |scenarios|
      ensures outcomes[i].scenario == scenarios[i]
      ensures outcomes[i].ngkg.medianThroughput >= rate <==> reach(scenarios[i])
    {
      ThroughputReaches(rows, scenarios[i], outcomes[i], rate);
    }
    PathsPaired(scenarios, outcomes, reach, rate);
    PathsNamed(rows, scenarios, rate);
  }

  lemma {:induction false} PathsNamed(rows: seq<Row>, scenarios: seq<Scenario>, rate: int)
    ensures (exists s :: s in scenarios && s.family == "property-path" && HalfReachAt(rows, rate)(s))
      <==> PathsMet(rows, scenarios, rate)
  {
    assert forall s :: HalfReachAt(rows, rate)(s) == HalfReach(NgkgTrials(rows, s), rate);
  }

  /** The three scale gates on the trials. */
  lemma {:induction false} ScaleGatesExactly(
      gates: Gates, scenarios: seq<Scenario>, rows: seq<Row>, outcomes: seq<Outcome>)
    requires Each(Measured, rows) && Summaries(rows, scenarios, outcomes)
    ensures ScaleGates(gates, scenarios, rows, outcomes) <==>
      && IngestMet(rows, scenarios, gates.ingestMaximumSeconds)
      && PathsMet(rows, scenarios, gates.pathEdgesPerSecond)
      && UsersMet(scenarios, gates.concurrentUsers)
  {
    IngestExactly(rows, scenarios, gates);
    FastestPath(outcomes, gates.pathEdgesPerSecond);
    PathsExactly(rows, scenarios, outcomes, gates.pathEdgesPerSecond);
    UsersExactly(scenarios, gates.concurrentUsers);
  }

  // ----- the speed gates

  /** The medians of the compared scenarios. */
  ghost predicate Medians(rows: seq<Row>, compared: seq<Scenario>, ratios: seq<Ratio>) {
    && |ratios| == |compared|
    && forall k :: 0 <= k < |compared| ==> MediansAt(rows)(ratios[k], compared[k])
  }

  ghost function MediansAt(rows: seq<Row>): (Ratio, Scenario) -> bool {
    (x: Ratio, s: Scenario) =>
      MedianDuration(NgkgTrials(rows, s), x.ngkg) && MedianDuration(JenaTrials(rows, s), x.jena)
  }

  function ComparedTest(s: Scenario): bool { s.requireExternalJena }
  function HotTest(s: Scenario): bool { s.requireExternalJena && s.cacheState == "hot" }

  lemma {:induction false} SummaryRatio(rows: seq<Row>, s: Scenario, o: Outcome)
    requires Each(Measured, rows) && SummaryOf(rows, s, o)
    ensures |RatiosIn(o)| == if s.requireExternalJena then 1 else 0
    ensures s.requireExternalJena ==>
      MediansAt(rows)(RatiosIn(o)[0], s) && RatiosIn(o)[0].jena > 0 && RatiosIn(o)[0].ngkg > 0
  {
    if s.requireExternalJena {
      ScenarioMeasured(rows, s);
      StatsRank(NgkgTrials(rows, s), NGKG, o.ngkg);
      StatsRank(JenaTrials(rows, s), JENA, o.jena.value);
      MedianPositive(NgkgTrials(rows, s), o.ngkg.p50);
      MedianPositive(JenaTrials(rows, s), o.jena.value.p50);
    }
  }

  lemma {:induction false} RatiosAre(rows: seq<Row>, scenarios: seq<Scenario>, outcomes: seq<Outcome>)
    requires Each(Measured, rows) && Summaries(rows, scenarios, outcomes)
    ensures Medians(rows, Filter(ComparedTest, scenarios), Flat(RatiosIn, outcomes))
    ensures Positive(Flat(RatiosIn, outcomes))
  {
    forall i | 0 <= i < |scenarios|
      ensures |RatiosIn(outcomes[i])| == if ComparedTest(scenarios[i]) then 1 else 0
      ensures ComparedTest(scenarios[i]) ==>
        && MediansAt(rows)(RatiosIn(outcomes[i])[0], scenarios[i])
        && RatiosIn(outcomes[i])[0].jena > 0 && RatiosIn(outcomes[i])[0].ngkg > 0
    {
      SummaryRatio(rows, scenarios[i], outcomes[i]);
    }
    FlatAligned(RatiosIn, outcomes, ComparedTest, scenarios, MediansAt(rows));
    FlatAligned(RatiosIn, outcomes, ComparedTest, scenarios, (x: Ratio, s: Scenario) => x.jena > 0 && x.ngkg > 0);
  }

  lemma {:induction false} RootExists(value: nat, degree: nat) returns (r: nat)
    requires degree >= 1
    ensures IsRoot(r, value, degree)
  {
    r := 0;
    while Pow(r + 1, degree) <= value
      invariant Pow(r, degree) <= value
      decreases value - r
    {
      PowAtLeast(r + 1, degree);
      r := r + 1;
    }
  }

  /** The root of the floored quotient reaches a gate exactly when the gate satisfies the products. */
  lemma {:induction false} RootReaches(n: nat, d: nat, e: nat, gate: int)
    requires d > 0 && e >= 1
    ensures (exists r: nat :: IsRoot(r, n / d, e) && r >= gate) <==> gate <= 0 || Pow(gate, e) * d <= n
  {
    var r := RootExists(n / d, e);
    if q: nat :| IsRoot(q, n / d, e) && q >= gate {
      RootUnique(q, r, n / d, e);
    }
    if gate > 0 {
      QuotientBound(Pow(gate, e), n, d);
      if r >= gate { PowMonotone(gate, r, e); } else { PowMonotone(r + 1, gate, e); }
    }
  }

  lemma {:induction false} ProductsPositive(ratios: seq<Ratio>)
    requires Positive(ratios)
    ensures JenaProduct(ratios) >= 0 && NgkgProduct(ratios) > 0
  {
    PositiveProducts(ratios);
    var pairs := Map(PairOf, ratios);
    forall i | 0 <= i < |pairs| ensures pairs[i].ngkg > 0 {
      assert pairs[i] == PairOf(ratios[i]);
    }
    DenominatorPositive(pairs);
  }

  lemma {:induction false} MeanReaches(ratios: seq<Ratio>, gate: int)
    requires ratios != [] && Positive(ratios)
    ensures (exists r: nat :: IsRatioRoot(r, ratios) && r >= gate) <==>
      gate <= 0 || Pow(gate, |ratios|) * NgkgProduct(ratios) <= JenaProduct(ratios)
  {
    ProductsPositive(ratios);
    var n, d := JenaProduct(ratios), NgkgProduct(ratios);
    assert forall r: nat :: IsRatioRoot(r, ratios) <==> IsRoot(r, n / d, |ratios|);
    RootReaches(n, d, |ratios|, gate);
  }

  /** The compared medians reach the gate on the mean: gate^n * prod(ngkg) <= prod(1000 * jena). */
  ghost predicate MeanMet(rows: seq<Row>, scenarios: seq<Scenario>, gate: int) {
    exists ratios :: Medians(rows, Filter(ComparedTest, scenarios), ratios) && ratios != []
      && (gate <= 0 || Pow(gate, |ratios|) * NgkgProduct(ratios) <= JenaProduct(ratios))
  }

  lemma {:induction false} MediansUnique(rows: seq<Row>, compared: seq<Scenario>, a: seq<Ratio>, b: seq<Ratio>)
    requires Each(Measured, rows) && Medians(rows, compared, a) && Medians(rows, compared, b)
    ensures a == b
  {
    forall k | 0 <= k < |compared| ensures a[k] == b[k] {
      ScenarioMeasured(rows, compared[k]);
      assert MediansAt(rows)(a[k], compared[k]) && MediansAt(rows)(b[k], compared[k]);
      MedianUnique(NgkgTrials(rows, compared[k]), a[k].ngkg, b[k].ngkg);
      MedianUnique(JenaTrials(rows, compared[k]), a[k].jena, b[k].jena);
    }
  }

  lemma {:induction false} MeanExactly(rows: seq<Row>, scenarios: seq<Scenario>, outcomes: seq<Outcome>, gate: int)
    requires Each(Measured, rows) && Summaries(rows, scenarios, outcomes)
    ensures var ratios := Flat(RatiosIn, outcomes);
      ratios != [] && (exists r: nat :: IsRatioRoot(r, ratios) && r >= gate) <==> MeanMet(rows, scenarios, gate)
  {
    var ratios, compared := Flat(RatiosIn, outcomes), Filter(ComparedTest, scenarios);
    RatiosAre(rows, scenarios, outcomes);
    if ratios != [] { MeanReaches(ratios, gate); }
    forall other | Medians(rows, compared, other) ensures other == ratios {
      MediansUnique(rows, compared, other, ratios);
    }
  }

  /** The compared scenario misses the gate on its own speedup. */
  ghost predicate MissesGate(rows: seq<Row>, s: Scenario, gate: int) {
    !FasterBy(NgkgTrials(rows, s), JenaTrials(rows, s), gate)
  }

  ghost function Misses(rows: seq<Row>, gate: int): Scenario -> bool {
    (s: Scenario) => MissesGate(rows, s, gate)
  }

  /** Fewer than half of the hot compared scenarios miss the gate. */
  ghost predicate HotMet(rows: seq<Row>, scenarios: seq<Scenario>, gate: int) {
    var hot := Filter(HotTest, scenarios);
    hot != [] && |Filter(Misses(rows, gate), hot)| < Rank(|hot|, 50)
  }

  ghost function MissesAlike(rows: seq<Row>, gate: int): (int, Scenario) -> bool {
    (x: int, s: Scenario) => x < gate <==> MissesGate(rows, s, gate)
  }

  lemma {:induction false} SummaryHot(rows: seq<Row>, s: Scenario, o: Outcome, gate: int)
    requires Each(Measured, rows) && SummaryOf(rows, s, o)
    ensures |HotIn(o)| == if HotTest(s) then 1 else 0
    ensures HotTest(s) ==> MissesAlike(rows, gate)(HotIn(o)[0], s)
  {
    HotShape(s, o);
    if HotTest(s) {
      HotValue(rows, s, o, gate);
      HotRelated(rows, s, o.speedup.value, gate);
    }
  }

  lemma {:induction false} HotShape(s: Scenario, o: Outcome)
    requires o.scenario == s && (o.speedup.Some? <==> s.requireExternalJena)
    ensures |HotIn(o)| == if HotTest(s) then 1 else 0
    ensures HotTest(s) ==> HotIn(o)[0] == o.speedup.value
  {
  }

  lemma {:induction false} HotRelated(rows: seq<Row>, s: Scenario, x: int, gate: int)
    requires x >= gate <==> FasterBy(NgkgTrials(rows, s), JenaTrials(rows, s), gate)
    ensures MissesAlike(rows, gate)(x, s)
  {
  }

  lemma {:induction false} ComparedMedians(rows: seq<Row>, s: Scenario, o: Outcome)
    requires SummaryOf(rows, s, o) && s.requireExternalJena
    ensures o.jena.Some? && o.speedup.Some? && o.ngkg.p50 > 0
    ensures o.speedup.value == FloorDiv(o.jena.value.p50 * 1000, o.ngkg.p50)
    ensures MedianDuration(NgkgTrials(rows, s), o.ngkg.p50) && MedianDuration(JenaTrials(rows, s), o.jena.value.p50)
  {
  }

  lemma {:induction false} HotValue(rows: seq<Row>, s: Scenario, o: Outcome, gate: int)
    requires Each(Measured, rows) && SummaryOf(rows, s, o) && s.requireExternalJena
    ensures o.speedup.Some? && (o.speedup.value >= gate <==> FasterBy(NgkgTrials(rows, s), JenaTrials(rows, s), gate))
  {
    ScenarioMeasured(rows, s);
    ComparedMedians(rows, s, o);
    SpeedupExactly(NgkgTrials(rows, s), JenaTrials(rows, s), o.ngkg.p50, o.jena.value.p50, gate);
  }

  lemma {:induction false} HotExactly(rows: seq<Row>, scenarios: seq<Scenario>, outcomes: seq<Outcome>, gate: int)
    requires Each(Measured, rows) && Summaries(rows, scenarios, outcomes)
    ensures var hot := Flat(HotIn, outcomes);
      hot != [] && Percentile(hot, 50) >= gate <==> HotMet(rows, scenarios, gate)
  {
    var values, hot := Flat(HotIn, outcomes), Filter(HotTest, scenarios);
    forall i | 0 <= i < |scenarios|
      ensures |HotIn(outcomes[i])| == if HotTest(scenarios[i]) then 1 else 0
      ensures HotTest(scenarios[i]) ==> MissesAlike(rows, gate)(HotIn(outcomes[i])[0], scenarios[i])
    {
      SummaryHot(rows, scenarios[i], outcomes[i], gate);
    }
    FlatAligned(HotIn, outcomes, HotTest, scenarios, MissesAlike(rows, gate));
    if values != [] {
      PercentileReaches(values, 50, gate);
      CountIsFilter(values, Below(gate), hot, Misses(rows, gate));
    }
  }

  // ----- capacity groups

  lemma {:induction false} ScalesSorted(points: seq<Outcome>)
    ensures Map(ScaleOf, SortPoints(points)) == Sorted(Map(ScaleOf, points))
  {
    var a, b := Map(ScaleOf, SortPoints(points)), Sorted(Map(ScaleOf, points));
    MapPermutation(ScaleOf, SortPoints(points), points);
    assert SortedBy(a, IntLe) by {
      forall i, j | 0 <= i < j < |a| ensures IntLe(a[i], a[j]) {
        assert ScaleLe(SortPoints(points)[i], SortPoints(points)[j]);
      }
    }
    SortedUnique(a, b, IntLe);
  }

  ghost predicate HasScale(points: seq<Outcome>, n: int) {
    exists i :: 0 <= i < |points| && points[i].scenario.scaleOrdinal == n
  }

  lemma {:induction false} DenseScaleExactly(points: seq<Outcome>)
    ensures DenseScale(points) <==> forall n :: 0 <= n < |points| ==> HasScale(points, n)
  {
    var scales := Map(ScaleOf, points);
    ScalesSorted(points);
    SortedRange(scales);
    forall n ensures n in scales <==> HasScale(points, n) {
      if n in scales {
        var i :| 0 <= i < |scales| && scales[i] == n;
        assert points[i].scenario.scaleOrdinal == n;
      }
      if i :| 0 <= i < |points| && points[i].scenario.scaleOrdinal == n {
        assert scales[i] == n;
      }
    }
  }

  /** In a dense group the point with scale `n` is the one at place `n`. */
  lemma {:induction false} PlaceOf(points: seq<Outcome>, i: nat)
    requires DenseScale(points) && i < |points|
    ensures 0 <= points[i].scenario.scaleOrdinal < |points|
    ensures SortPoints(points)[points[i].scenario.scaleOrdinal] == points[i]
  {
    var sorted := SortPoints(points);
    SameMembers(sorted, points);
    assert points[i] in sorted;
    var k :| 0 <= k < |sorted| && sorted[k] == points[i];
    assert Map(ScaleOf, sorted)[k] == k;
  }

  /** Points `i` and `j` have the smallest and the largest scale. */
  ghost predicate Ends(points: seq<Outcome>, i: int, j: int) {
    && 0 <= i < |points| && 0 <= j < |points|
    && points[i].scenario.scaleOrdinal == 0 && points[j].scenario.scaleOrdinal == |points| - 1
  }

  /** The point with the largest scale is no slower than the one with scale zero. */
  ghost predicate EndsMet(points: seq<Outcome>) {
    forall i, j :: Ends(points, i, j) ==> points[j].ngkg.medianThroughput >= points[i].ngkg.medianThroughput
  }

  lemma {:induction false} PointAt(points: seq<Outcome>, k: nat) returns (i: nat)
    requires DenseScale(points) && k < |points|
    ensures i < |points| && SortPoints(points)[k] == points[i] && points[i].scenario.scaleOrdinal == k
  {
    var sorted := SortPoints(points);
    SameMembers(sorted, points);
    assert sorted[k] in points;
    i :| 0 <= i < |points| && points[i] == sorted[k];
    assert Map(ScaleOf, sorted)[k] == k;
  }

  lemma {:induction false} EndsExactly(points: seq<Outcome>)
    requires DenseScale(points)
    ensures (|points| > 1 ==>
              SortPoints(points)[|points|-1].ngkg.medianThroughput >= SortPoints(points)[0].ngkg.medianThroughput)
      <==> EndsMet(points)
  {
    if points != [] {
      var i := PointAt(points, 0);
      var j := PointAt(points, |points| - 1);
      assert Ends(points, i, j);
      forall k, l | Ends(points, k, l) ensures points[k] == points[i] && points[l] == points[j] {
        PlaceOf(points, k);
        PlaceOf(points, l);
      }
    }
  }

  ghost predicate RootAt(rows: seq<Row>, points: seq<Outcome>, i: int, row: Row) {
    0 <= i < |points| && row in NgkgTrials(rows, points[i].scenario) && row.artifactRootSha256.Some?
  }

  /** All trials of the group that report an artifact root report the same one. */
  ghost predicate RootsMet(rows: seq<Row>, points: seq<Outcome>) {
    forall i, j, a, b :: RootAt(rows, points, i, a) && RootAt(rows, points, j, b) ==>
      a.artifactRootSha256 == b.artifactRootSha256
  }

  lemma {:induction false} RootsOfPoint(rows: seq<Row>, o: Outcome)
    ensures RootsAt(rows)(o) == Map(ArtifactOf, NgkgTrials(rows, o.scenario))
  {
    TrialsSelected(rows, o.scenario.scenarioId, NGKG, MEASURED);
  }

  /** A listed root is reported by some trial of some point. */
  lemma {:induction false} RootFound(rows: seq<Row>, points: seq<Outcome>, x: Option<string>)
    returns (i: nat, row: Row)
    requires x.Some? && x in Flat(RootsAt(rows), SortPoints(points))
    ensures RootAt(rows, points, i, row) && row.artifactRootSha256 == x
  {
    var sorted, roots := SortPoints(points), Flat(RootsAt(rows), SortPoints(points));
    var k :| 0 <= k < |roots| && roots[k] == x;
    var m, n := FlatOrigin(RootsAt(rows), sorted, k);
    RootsOfPoint(rows, sorted[m]);
    SameMembers(sorted, points);
    assert sorted[m] in points;
    i :| 0 <= i < |points| && points[i] == sorted[m];
    row := NgkgTrials(rows, points[i].scenario)[n];
  }

  lemma {:induction false} RootKept(rows: seq<Row>, points: seq<Outcome>, i: nat, row: Row)
    requires RootAt(rows, points, i, row)
    ensures row.artifactRootSha256 in Flat(RootsAt(rows), SortPoints(points))
  {
    var sorted := SortPoints(points);
    SameMembers(sorted, points);
    assert points[i] in sorted;
    var m :| 0 <= m < |sorted| && sorted[m] == points[i];
    RootsOfPoint(rows, sorted[m]);
    var trials := NgkgTrials(rows, sorted[m].scenario);
    var n :| 0 <= n < |trials| && trials[n] == row;
    FlatListed(RootsAt(rows), sorted, m, n);
  }

  lemma {:induction false} AtMostOne<T>(s: set<T>)
    ensures |s| <= 1 <==> forall x, y :: x in s && y in s ==> x == y
  {
    if |s| <= 1 {
      forall x, y | x in s && y in s ensures x == y { SizeOfSubset({x, y}, s); }
    } else {
      var x :| x in s;
      assert |s - {x}| >= 1;
      var y :| y in s - {x};
    }
  }

  lemma {:induction false} RootsExactly(rows: seq<Row>, points: seq<Outcome>)
    ensures |Members(Flat(RootsAt(rows), SortPoints(points))) - {None}| <= 1 <==> RootsMet(rows, points)
  {
    var listed := Flat(RootsAt(rows), SortPoints(points));
    var roots := Members(listed) - {None};
    AtMostOne(roots);
    if |roots| <= 1 {
      forall i, j, a, b | RootAt(rows, points, i, a) && RootAt(rows, points, j, b)
        ensures a.artifactRootSha256 == b.artifactRootSha256
      {
        RootKept(rows, points, i, a);
        RootKept(rows, points, j, b);
        assert a.artifactRootSha256 in roots && b.artifactRootSha256 in roots;
      }
    }
    if RootsMet(rows, points) {
      forall x, y | x in roots && y in roots ensures x == y {
        var i, a := RootFound(rows, points, x);
        var j, b := RootFound(rows, points, y);
      }
    }
  }

  /** A group is accepted exactly if its scales are 0, 1, ..., n - 1, its largest is no slower than its
      smallest, and its trials agree on the artifact. */
  lemma {:induction false} GroupWhen(rows: seq<Row>, points: seq<Outcome>)
    ensures GroupAccepted(rows, points) <==>
      (forall n :: 0 <= n < |points| ==> HasScale(points, n)) && EndsMet(points) && RootsMet(rows, points)
  {
    DenseScaleExactly(points);
    RootsExactly(rows, points);
    if DenseScale(points) { EndsExactly(points); }
  }

  // ----- groups of scenarios

  function InGroup(name: string): Scenario -> bool {
    (s: Scenario) => s.capacityGroup == name
  }

  ghost predicate ScaleIn(xs: seq<Scenario>, n: int) {
    exists k :: 0 <= k < |xs| && xs[k].scaleOrdinal == n
  }

  ghost predicate EndScenarios(xs: seq<Scenario>, i: int, j: int) {
    0 <= i < |xs| && 0 <= j < |xs| && xs[i].scaleOrdinal == 0 && xs[j].scaleOrdinal == |xs| - 1
  }

  ghost predicate MedianRate(rows: seq<Row>, m: int) {
    RanksAt(rows, GigaItems, Nanoseconds, Rank(|rows|, 50), m)
  }

  /** The median whole rate of one list of trials is at least that of another. */
  ghost predicate NoSlower(rows: seq<Row>, than: seq<Row>) {
    exists m, n :: MedianRate(rows, m) && MedianRate(than, n) && m >= n
  }

  ghost predicate Reports(rows: seq<Row>, xs: seq<Scenario>, i: int, row: Row) {
    0 <= i < |xs| && row in NgkgTrials(rows, xs[i]) && row.artifactRootSha256.Some?
  }

  /** The scenarios of a group have the scales 0, 1, ..., n - 1, the largest is no slower than the smallest,
      and all their trials that report an artifact root report the same one. */
  ghost predicate GroupMet(rows: seq<Row>, scenarios: seq<Scenario>, name: string) {
    var xs := Filter(InGroup(name), scenarios);
    && (forall n :: 0 <= n < |xs| ==> ScaleIn(xs, n))
    && (forall i, j :: EndScenarios(xs, i, j) ==> NoSlower(NgkgTrials(rows, xs[j]), NgkgTrials(rows, xs[i])))
    && forall i, j, a, b :: Reports(rows, xs, i, a) && Reports(rows, xs, j, b) ==>
         a.artifactRootSha256 == b.artifactRootSha256
  }

  ghost function SummaryAt(rows: seq<Row>): (Outcome, Scenario) -> bool {
    (o: Outcome, s: Scenario) => SummaryOf(rows, s, o)
  }

  lemma {:induction false} PointsAligned(
      rows: seq<Row>, scenarios: seq<Scenario>, outcomes: seq<Outcome>, name: string)
    requires Summaries(rows, scenarios, outcomes)
    ensures Summaries(rows, Filter(InGroup(name), scenarios), GroupPoints(name, outcomes))
  {
    var test, points := Compose(GroupIs(name), ScenarioIn), GroupPoints(name, outcomes);
    forall i | 0 <= i < |outcomes|
      ensures test(outcomes[i]) == InGroup(name)(scenarios[i]) && SummaryAt(rows)(outcomes[i], scenarios[i])
    {
      ComposeAt(GroupIs(name), ScenarioIn, outcomes[i]);
      assert SummaryOf(rows, scenarios[i], outcomes[i]);
    }
    FilterAligned(test, outcomes, InGroup(name), scenarios, SummaryAt(rows));
    forall k | 0 <= k < |points| ensures SummaryOf(rows, Filter(InGroup(name), scenarios)[k], points[k]) {
      assert SummaryAt(rows)(points[k], Filter(InGroup(name), scenarios)[k]);
    }
  }

  lemma {:induction false} RateOf(rows: seq<Row>, s: Scenario, o: Outcome)
    requires SummaryOf(rows, s, o)
    ensures MedianRate(NgkgTrials(rows, s), o.ngkg.medianThroughput) && o.scenario == s
  {
  }

  lemma {:induction false} NoSlowerExactly(rows: seq<Row>, than: seq<Row>, m: int, n: int)
    requires Each(Measured, rows) && Each(Measured, than) && MedianRate(rows, m) && MedianRate(than, n)
    ensures m >= n <==> NoSlower(rows, than)
  {
    Positives(rows);
    Positives(than);
    forall a, b | MedianRate(rows, a) && MedianRate(than, b) ensures a == m && b == n {
      RankUnique(rows, GigaItems, Nanoseconds, Rank(|rows|, 50), a, m);
      RankUnique(than, GigaItems, Nanoseconds, Rank(|than|, 50), b, n);
    }
  }

  lemma {:induction false} SlowerPoints(rows: seq<Row>, a: Scenario, b: Scenario, x: Outcome, y: Outcome)
    requires Each(Measured, rows) && SummaryOf(rows, a, x) && SummaryOf(rows, b, y)
    ensures y.ngkg.medianThroughput >= x.ngkg.medianThroughput <==> NoSlower(NgkgTrials(rows, b), NgkgTrials(rows, a))
  {
    RateOf(rows, a, x);
    RateOf(rows, b, y);
    ScenarioMeasured(rows, a);
    ScenarioMeasured(rows, b);
    NoSlowerExactly(NgkgTrials(rows, b), NgkgTrials(rows, a), y.ngkg.medianThroughput, x.ngkg.medianThroughput);
  }

  /** A group is accepted exactly when it meets its conditions. */
  lemma {:induction false} GroupExactly(
      rows: seq<Row>, scenarios: seq<Scenario>, outcomes: seq<Outcome>, name: string)
    requires Each(Measured, rows) && Summaries(rows, scenarios, outcomes)
    ensures GroupAccepted(rows, GroupPoints(name, outcomes)) <==> GroupMet(rows, scenarios, name)
  {
    var xs, points := Filter(InGroup(name), scenarios), GroupPoints(name, outcomes);
    PointsAligned(rows, scenarios, outcomes, name);
    GroupWhen(rows, points);
    SameScenarios(rows, xs, points);
    EndsAlike(rows, xs, points);
    RootsAlike(rows, xs, points);
  }

  lemma {:induction false} SameScenarios(rows: seq<Row>, xs: seq<Scenario>, points: seq<Outcome>)
    requires Summaries(rows, xs, points)
    ensures forall k :: 0 <= k < |xs| ==> points[k].scenario == xs[k]
    ensures forall n :: HasScale(points, n) <==> ScaleIn(xs, n)
  {
    forall k | 0 <= k < |xs| ensures points[k].scenario == xs[k] { RateOf(rows, xs[k], points[k]); }
  }

  lemma {:induction false} EndsAlike(rows: seq<Row>, xs: seq<Scenario>, points: seq<Outcome>)
    requires Each(Measured, rows) && Summaries(rows, xs, points)
    ensures EndsMet(points) <==>
      forall i, j :: EndScenarios(xs, i, j) ==> NoSlower(NgkgTrials(rows, xs[j]), NgkgTrials(rows, xs[i]))
  {
    SameScenarios(rows, xs, points);
    forall i, j | EndScenarios(xs, i, j)
      ensures Ends(points, i, j)
      ensures points[j].ngkg.medianThroughput >= points[i].ngkg.medianThroughput
        <==> NoSlower(NgkgTrials(rows, xs[j]), NgkgTrials(rows, xs[i]))
    {
      SlowerPoints(rows, xs[i], xs[j], points[i], points[j]);
    }
    assert forall i, j :: Ends(points, i, j) ==> EndScenarios(xs, i, j);
  }

  lemma {:induction false} RootsAlike(rows: seq<Row>, xs: seq<Scenario>, points: seq<Outcome>)
    requires Summaries(rows, xs, points)
    ensures RootsMet(rows, points) <==>
      forall i, j, a, b :: Reports(rows, xs, i, a) && Reports(rows, xs, j, b) ==>
        a.artifactRootSha256 == b.artifactRootSha256
  {
    SameScenarios(rows, xs, points);
    assert forall i, row :: RootAt(rows, points, i, row) <==> Reports(rows, xs, i, row);
  }

  // ----- all claims

  /** The plan has scenarios of exactly the required families. */
  ghost predicate FamiliesMet(scenarios: seq<Scenario>, required: set<string>) {
    forall family :: family in required <==> exists s :: s in scenarios && s.family == family
  }

  ghost predicate AllQualify(rows: seq<Row>, scenarios: seq<Scenario>) {
    forall s :: s in scenarios ==> Qualifies(rows, s)
  }

  ghost predicate GroupsMet(rows: seq<Row>, scenarios: seq<Scenario>) {
    forall s :: s in scenarios ==> GroupMet(rows, scenarios, s.capacityGroup)
  }

  ghost predicate GatesMet(gates: Gates, rows: seq<Row>, scenarios: seq<Scenario>) {
    && MeanMet(rows, scenarios, gates.geometricMeanMilliX) && HotMet(rows, scenarios, gates.hotMedianMilliX)
    && IngestMet(rows, scenarios, gates.ingestMaximumSeconds) && PathsMet(rows, scenarios, gates.pathEdgesPerSecond)
    && UsersMet(scenarios, gates.concurrentUsers)
  }

  /** Every claim of the certificate, on the plan and the measured rows. */
  ghost predicate ClaimsMet(plan: Plan, inventory: Inventory, rows: seq<Row>) {
    && FamiliesMet(plan.scenarios, inventory.requiredFamilies)
    && AllQualify(rows, plan.scenarios)
    && GroupsMet(rows, plan.scenarios)
    && GatesMet(inventory.gates, rows, plan.scenarios)
  }

  lemma {:induction false} FamiliesExactly(scenarios: seq<Scenario>, required: set<string>)
    ensures Families(scenarios) == required <==> FamiliesMet(scenarios, required)
  {
    forall family ensures family in Families(scenarios) <==> exists s :: s in scenarios && s.family == family {
      if family in Families(scenarios) {
        var i :| 0 <= i < |scenarios| && scenarios[i].family == family;
        assert scenarios[i] in scenarios;
      }
      if s :| s in scenarios && s.family == family {
        var i :| 0 <= i < |scenarios| && scenarios[i] == s;
        assert scenarios[i].family == family;
      }
    }
  }

  lemma {:induction false} GroupsExactly(rows: seq<Row>, scenarios: seq<Scenario>, outcomes: seq<Outcome>)
    requires Each(Measured, rows) && Summaries(rows, scenarios, outcomes)
    ensures GroupsAccepted(rows, outcomes) <==> GroupsMet(rows, scenarios)
  {
    SameScenarios(rows, scenarios, outcomes);
    forall i | 0 <= i < |scenarios|
      ensures outcomes[i].scenario.capacityGroup == scenarios[i].capacityGroup
      ensures GroupAccepted(rows, GroupPoints(scenarios[i].capacityGroup, outcomes))
        <==> GroupMet(rows, scenarios, scenarios[i].capacityGroup)
    {
      GroupExactly(rows, scenarios, outcomes, scenarios[i].capacityGroup);
    }
    GroupsPaired(rows, scenarios, outcomes);
  }

  lemma {:induction false} GroupsPaired(rows: seq<Row>, scenarios: seq<Scenario>, outcomes: seq<Outcome>)
    requires |outcomes| == |scenarios|
    requires forall i :: 0 <= i < |scenarios| ==> outcomes[i].scenario == scenarios[i]
    ensures GroupsAccepted(rows, outcomes) <==>
      forall i :: 0 <= i < |scenarios| ==> GroupAccepted(rows, GroupPoints(scenarios[i].capacityGroup, outcomes))
  {
    forall i | 0 <= i < |scenarios| ensures scenarios[i].capacityGroup in GroupNames(outcomes) {
      assert outcomes[i].scenario.capacityGroup in GroupNames(outcomes);
    }
  }

  lemma {:induction false} SpeedGatesExactly(
      gates: Gates, rows: seq<Row>, scenarios: seq<Scenario>, outcomes: seq<Outcome>)
    requires Each(Measured, rows) && Summaries(rows, scenarios, outcomes)
    ensures SpeedGates(gates, outcomes) <==>
      MeanMet(rows, scenarios, gates.geometricMeanMilliX) && HotMet(rows, scenarios, gates.hotMedianMilliX)
  {
    MeanExactly(rows, scenarios, outcomes, gates.geometricMeanMilliX);
    HotExactly(rows, scenarios, outcomes, gates.hotMedianMilliX);
  }

  lemma {:induction false} GatesExactly(
      gates: Gates, rows: seq<Row>, scenarios: seq<Scenario>, outcomes: seq<Outcome>)
    requires Each(Measured, rows) && Summaries(rows, scenarios, outcomes)
    ensures SpeedGates(gates, outcomes) && ScaleGates(gates, scenarios, rows, outcomes)
      <==> GatesMet(gates, rows, scenarios)
  {
    SpeedGatesExactly(gates, rows, scenarios, outcomes);
    ScaleGatesExactly(gates, scenarios, rows, outcomes);
  }

  lemma {:induction false} ClaimsWhen(
      plan: Plan, inventory: Inventory, rows: seq<Row>, families: bool, summarized: bool, groups: bool, gates: bool)
    requires families <==> Families(plan.scenarios) == inventory.requiredFamilies
    requires summarized <==> Outcomes(rows, plan.scenarios).Some?
    requires summarized ==> (groups <==> GroupsAccepted(rows, Outcomes(rows, plan.scenarios).value))
    requires summarized ==> (gates <==>
      && SpeedGates(inventory.gates, Outcomes(rows, plan.scenarios).value)
      && ScaleGates(inventory.gates, plan.scenarios, rows, Outcomes(rows, plan.scenarios).value))
    ensures ClaimsHold(plan, inventory, rows) <==> families && summarized && groups && gates
  {
  }

  /** For rows that workers measured, the merger's claims hold exactly when each of them is met. */
  lemma {:induction false} ClaimsExactly(plan: Plan, inventory: Inventory, rows: seq<Row>)
    requires Each(Measured, rows)
    ensures ClaimsHold(plan, inventory, rows) <==> ClaimsMet(plan, inventory, rows)
  {
    var families := FamiliesMet(plan.scenarios, inventory.requiredFamilies);
    var summarized, groups := AllQualify(rows, plan.scenarios), GroupsMet(rows, plan.scenarios);
    var gates := GatesMet(inventory.gates, rows, plan.scenarios);
    FamiliesExactly(plan.scenarios, inventory.requiredFamilies);
    OutcomesExactly(rows, plan.scenarios);
    if summarized {
      GroupsExactly(rows, plan.scenarios, Outcomes(rows, plan.scenarios).value);
      GatesExactly(inventory.gates, rows, plan.scenarios, Outcomes(rows, plan.scenarios).value);
    }
    ClaimsWhen(plan, inventory, rows, families, summarized, groups, gates);
  }
}
