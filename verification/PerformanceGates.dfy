/** Phase 40.13.23: every threshold and gate of the merger, restated on the fields of the individual rows
    and without any rounding. */
module PerformanceGates {
  import opened Options
  import opened Sorting
  import opened Sequences
  import opened Loops
  import opened Partitions
  import opened IntegerStatistics
  import opened PerformanceRun
  import opened PerformanceMerge

  // ----- the trials of one engine

  /** The rows of one scenario, engine and phase. */
  function Trials(rows: seq<Row>, id: string, engine: string, phase: string): seq<Row> {
    Filter(TrialTest(id, engine, phase), rows)
  }

  function TrialTest(id: string, engine: string, phase: string): Row -> bool {
    (row: Row) => row.scenarioId == id && row.engine == engine && row.trialPhase == phase
  }

  lemma {:induction false} FilterTwice<A>(p: A -> bool, q: A -> bool, both: A -> bool, s: seq<A>)
    requires forall x :: x in s ==> both(x) == (p(x) && q(x))
    ensures Filter(q, Filter(p, s)) == Filter(both, s)
  {
    if s != [] {
      var init, x := s[..|s|-1], s[|s|-1];
      assert forall y :: y in init ==> y in s;
      FilterTwice(p, q, both, init);
      assert x in s;
      FilterSnoc(q, Filter(p, init), x);
    }
  }

  /** What the merger selects step by step. */
  lemma {:induction false} TrialsSelected(rows: seq<Row>, id: string, engine: string, phase: string)
    ensures RowsOfPhase(RowsOfEngine(RowsFor(rows, id), engine), phase) == Trials(rows, id, engine, phase)
  {
    var two := (row: Row) => row.scenarioId == id && row.engine == engine;
    forall row: Row
      ensures Compose(IdIs(id), RowKey)(row) == (row.scenarioId == id)
      ensures Compose(EngineIs(engine), RowKey)(row) == (row.engine == engine)
      ensures Compose(PhaseIs(phase), RowKey)(row) == (row.trialPhase == phase)
    {
      ComposeAt(IdIs(id), RowKey, row);
      ComposeAt(EngineIs(engine), RowKey, row);
      ComposeAt(PhaseIs(phase), RowKey, row);
    }
    FilterTwice(Compose(IdIs(id), RowKey), Compose(EngineIs(engine), RowKey), two, rows);
    FilterTwice(two, Compose(PhaseIs(phase), RowKey), TrialTest(id, engine, phase), rows);
  }

  // ----- percentiles against a limit

  /** A percentile within a limit means that its share of the values is within the limit. */
  lemma {:induction false} PercentileWithin(values: seq<int>, p: nat, limit: int)
    requires values != [] && 1 <= p <= 100
    ensures Percentile(values, p) <= limit <==> Count(values, AtMost(limit)) >= Rank(|values|, p)
  {
    NearestIsOrderStatistic(values, p);
    var x := Percentile(values, p);
    if x <= limit {
      CountWeaken(values, AtMost(x), AtMost(limit));
    } else {
      CountWeaken(values, AtMost(limit), Below(x));
    }
  }

  lemma {:induction false} PercentileReaches(values: seq<int>, p: nat, limit: int)
    requires values != [] && 1 <= p <= 100
    ensures Percentile(values, p) >= limit <==> Count(values, Below(limit)) < Rank(|values|, p)
  {
    NearestIsOrderStatistic(values, p);
    var x := Percentile(values, p);
    if x >= limit {
      CountWeaken(values, Below(limit), Below(x));
    } else {
      CountWeaken(values, AtMost(x), Below(limit));
    }
  }

  // ----- ranks of ratios

  /** The ratio of two fields is below a limit. */
  function Under(num: Row -> int, den: Row -> int, limit: int): Row -> bool {
    (row: Row) => num(row) < limit * den(row)
  }

  /** How many rows have the ratio below a limit. */
  function HowManyUnder(rows: seq<Row>, num: Row -> int, den: Row -> int, limit: int): nat {
    |Filter(Under(num, den, limit), rows)|
  }

  /** `m` is the whole part of the ratio that stands at this rank. */
  ghost predicate RanksAt(rows: seq<Row>, num: Row -> int, den: Row -> int, rank: nat, m: int) {
    HowManyUnder(rows, num, den, m) < rank <= HowManyUnder(rows, num, den, m + 1)
  }

  lemma {:induction false} CountIsFilter<A>(values: seq<int>, p: int -> bool, rows: seq<A>, test: A -> bool)
    requires |values| == |rows| && forall i :: 0 <= i < |rows| ==> p(values[i]) == test(rows[i])
    ensures Count(values, p) == |Filter(test, rows)|
  {
    if rows != [] {
      var n := |rows| - 1;
      CountIsFilter(values[..n], p, rows[..n], test);
      assert values == values[..n] + [values[n]];
      CountSplit(values[..n], [values[n]], p);
      assert [values[n]][1..] == [];
      assert Count([values[n]], p) == (if p(values[n]) then 1 else 0) + Count([], p);
    }
  }

  lemma {:induction false} FewerUnder(rows: seq<Row>, num: Row -> int, den: Row -> int, a: int, b: int)
    requires a <= b && forall row :: row in rows ==> den(row) > 0
    ensures HowManyUnder(rows, num, den, a) <= HowManyUnder(rows, num, den, b)
  {
    if rows != [] {
      var init, row := rows[..|rows|-1], rows[|rows|-1];
      assert row in rows && forall x :: x in init ==> x in rows;
      FewerUnder(init, num, den, a, b);
      assert a * den(row) <= b * den(row) by { Scales(a, b, den(row)); }
    }
  }

  lemma {:induction false} Scales(a: int, b: int, c: int)
    requires a <= b && c > 0
    ensures a * c <= b * c
  {
    assert (b - a) * c >= 0;
  }

  /** A rank against a limit. */
  lemma {:induction false} RankAgainst(
      rows: seq<Row>, num: Row -> int, den: Row -> int, rank: nat, m: int, limit: int)
    requires RanksAt(rows, num, den, rank, m) && forall row :: row in rows ==> den(row) > 0
    ensures m >= limit <==> HowManyUnder(rows, num, den, limit) < rank
    ensures m <= limit <==> HowManyUnder(rows, num, den, limit + 1) >= rank
  {
    if m >= limit {
      FewerUnder(rows, num, den, limit, m);
    } else {
      FewerUnder(rows, num, den, m + 1, limit);
    }
    if m <= limit {
      FewerUnder(rows, num, den, m + 1, limit + 1);
    } else {
      FewerUnder(rows, num, den, limit + 1, m);
    }
  }

  /** Only one number stands at a rank. */
  lemma {:induction false} RankUnique(rows: seq<Row>, num: Row -> int, den: Row -> int, rank: nat, m: int, n: int)
    requires RanksAt(rows, num, den, rank, m) && RanksAt(rows, num, den, rank, n)
    requires forall row :: row in rows ==> den(row) > 0
    ensures m == n
  {
    RankAgainst(rows, num, den, rank, m, n);
    RankAgainst(rows, num, den, rank, n, m);
  }

  lemma {:induction false} FloorBelow(a: int, b: int, limit: int)
    requires b > 0
    ensures FloorDiv(a, b) < limit <==> a < limit * b
  {
    var q := a / b;
    assert q * b <= a < q * b + b;
    if q < limit {
      Scales(q + 1, limit, b);
      assert (q + 1) * b == q * b + b;
    } else {
      Scales(limit, q, b);
    }
  }

  lemma {:induction false} WholePart(v: int, row: Row, num: Row -> int, den: Row -> int, m: int)
    requires den(row) > 0 && v == FloorDiv(num(row), den(row))
    ensures Below(m)(v) == Under(num, den, m)(row)
    ensures AtMost(m)(v) == Under(num, den, m + 1)(row)
  {
    FloorBelow(num(row), den(row), m);
    FloorBelow(num(row), den(row), m + 1);
  }

  /** The values are the whole parts of the ratios. */
  predicate WholeParts(values: seq<int>, rows: seq<Row>, num: Row -> int, den: Row -> int) {
    && |values| == |rows|
    && forall i :: 0 <= i < |rows| ==> den(rows[i]) > 0 && values[i] == FloorDiv(num(rows[i]), den(rows[i]))
  }

  lemma {:induction false} CountsAgree(
      values: seq<int>, rows: seq<Row>, num: Row -> int, den: Row -> int, m: int)
    requires WholeParts(values, rows, num, den)
    ensures Count(values, Below(m)) == HowManyUnder(rows, num, den, m)
    ensures Count(values, AtMost(m)) == HowManyUnder(rows, num, den, m + 1)
  {
    var below, above := Under(num, den, m), Under(num, den, m + 1);
    forall i | 0 <= i < |rows|
      ensures Below(m)(values[i]) == below(rows[i]) && AtMost(m)(values[i]) == above(rows[i])
    {
      WholePart(values[i], rows[i], num, den, m);
    }
    CountIsFilter(values, Below(m), rows, below);
    CountIsFilter(values, AtMost(m), rows, above);
  }

  lemma {:induction false} StatisticRanks(
      values: seq<int>, rows: seq<Row>, num: Row -> int, den: Row -> int, rank: nat, m: int)
    requires WholeParts(values, rows, num, den) && OrderStatistic(m, values, rank)
    ensures RanksAt(rows, num, den, rank, m)
  {
    CountsAgree(values, rows, num, den, m);
  }

  /** The percentile of the whole parts is the whole part that stands at the rank. */
  lemma {:induction false} PercentileRanks(
      rows: seq<Row>, values: seq<int>, num: Row -> int, den: Row -> int, p: nat)
    requires rows != [] && 1 <= p <= 100 && WholeParts(values, rows, num, den)
    ensures RanksAt(rows, num, den, Rank(|rows|, p), Percentile(values, p))
  {
    NearestIsOrderStatistic(values, p);
    StatisticRanks(values, rows, num, den, Rank(|rows|, p), Percentile(values, p));
  }

  // ----- the numbers of one engine

  function Nanoseconds(row: Row): int { row.durationNanoseconds }
  function One(row: Row): int { 1 }
  function GigaItems(row: Row): int { row.workItems * 1_000_000_000 }
  function Items(row: Row): int { row.workItems }
  function MegaCost(row: Row): int { row.costMicroUsd * 1_000_000 }

  /** The largest value of a field. */
  ghost predicate IsLargest(rows: seq<Row>, field: Row -> int, m: int) {
    (exists row :: row in rows && field(row) == m) && forall row :: row in rows ==> field(row) <= m
  }

  /** The reported numbers, in terms of the trials themselves. */
  ghost predicate IsStats(rows: seq<Row>, engine: string, t: Stats) {
    && t.engine == engine && t.measuredTrials == |rows| > 0
    && RanksAt(rows, Nanoseconds, One, Rank(|rows|, 50), t.p50)
    && RanksAt(rows, Nanoseconds, One, Rank(|rows|, 95), t.p95)
    && RanksAt(rows, Nanoseconds, One, Rank(|rows|, 99), t.p99)
    && RanksAt(rows, GigaItems, Nanoseconds, Rank(|rows|, 50), t.medianThroughput)
    && RanksAt(rows, MegaCost, Items, Rank(|rows|, 50), t.medianCost)
    && IsLargest(rows, (row: Row) => row.nodesActivated, t.maximumNodes)
    && IsLargest(rows, (row: Row) => row.peakRssBytes, t.maximumRss)
  }

  lemma {:induction false} MaxIsLargest(rows: seq<Row>, f: Row -> int, field: Row -> int)
    requires rows != [] && forall i :: 0 <= i < |rows| ==> f(rows[i]) == field(rows[i])
    ensures IsLargest(rows, field, Max(Map(f, rows)))
  {
    var values := Map(f, rows);
    var i :| 0 <= i < |values| && values[i] == Max(values);
    assert rows[i] in rows && field(rows[i]) == Max(values);
    forall row | row in rows ensures field(row) <= Max(values) {
      var j :| 0 <= j < |rows| && rows[j] == row;
      assert values[j] in values;
    }
  }

  lemma {:induction false} StatsExact(rows: seq<Row>, engine: string)
    requires rows != [] && Each(Measured, rows)
    ensures IsStats(rows, engine, StatsOf(engine, rows))
  {
    forall i | 0 <= i < |rows|
      ensures Measured(rows[i]) && FloorDiv(rows[i].durationNanoseconds, 1) == DurationOf(rows[i])
    {
    }
    var durations := Map(DurationOf, rows);
    assert WholeParts(durations, rows, Nanoseconds, One);
    assert WholeParts(Map(ThroughputOf, rows), rows, GigaItems, Nanoseconds);
    assert WholeParts(Map(CostOf, rows), rows, MegaCost, Items);
    PercentileRanks(rows, durations, Nanoseconds, One, 50);
    PercentileRanks(rows, durations, Nanoseconds, One, 95);
    PercentileRanks(rows, durations, Nanoseconds, One, 99);
    PercentileRanks(rows, Map(ThroughputOf, rows), GigaItems, Nanoseconds, 50);
    PercentileRanks(rows, Map(CostOf, rows), MegaCost, Items, 50);
    MaxIsLargest(rows, NodesOf, (row: Row) => row.nodesActivated);
    MaxIsLargest(rows, RssOf, (row: Row) => row.peakRssBytes);
  }

  // ----- one scenario

  /** The planned trials, numbered from zero, and no others. */
  ghost predicate AllTrials(rows: seq<Row>, count: int) {
    |rows| == count && forall n :: 0 <= n < count ==> HasTrial(rows, n)
  }

  ghost predicate HasTrial(rows: seq<Row>, n: int) {
    exists row :: row in rows && row.trial == n
  }

  lemma {:induction false} RangeSorted(values: seq<int>)
    requires forall n :: 0 <= n < |values| ==> n in values
    ensures Sorted(values) == Indices(|values|)
  {
    var sorted := Sorted(values);
    SameMembers(sorted, values);
    CoverNumbers(sorted);
    assert forall i, j :: 0 <= i < j < |sorted| ==> IntLe(sorted[i], sorted[j]);
    DenseNumbers(sorted);
  }

  lemma {:induction false} SortedRange(values: seq<int>)
    ensures Sorted(values) == Indices(|values|) <==> forall n :: 0 <= n < |values| ==> n in values
  {
    if Sorted(values) == Indices(|values|) {
      SameMembers(Sorted(values), values);
      forall n | 0 <= n < |values| ensures n in values {
        assert Indices(|values|)[n] == n;
      }
    }
    if forall n :: 0 <= n < |values| ==> n in values {
      RangeSorted(values);
    }
  }

  lemma {:induction false} DenseExactly(rows: seq<Row>, count: int)
    ensures Dense(rows, count) <==> AllTrials(rows, count)
  {
    var values := Map(TrialOf, rows);
    SortedRange(values);
    forall n ensures n in values <==> HasTrial(rows, n) {
      if n in values {
        var i :| 0 <= i < |values| && values[i] == n;
        assert rows[i] in rows && rows[i].trial == TrialOf(rows[i]) == n;
      }
      if row :| row in rows && row.trial == n {
        var i :| 0 <= i < |rows| && rows[i] == row;
        assert values[i] == n;
      }
    }
  }

  /** The numbers are determined by the trials. */
  lemma {:induction false} StatsUnique(rows: seq<Row>, engine: string, t: Stats, u: Stats)
    requires Each(Measured, rows) && IsStats(rows, engine, t) && IsStats(rows, engine, u)
    ensures t == u
  {
    forall row | row in rows ensures One(row) > 0 && Nanoseconds(row) > 0 && Items(row) > 0 {
      var i :| 0 <= i < |rows| && rows[i] == row;
      assert Measured(rows[i]);
    }
    RankUnique(rows, Nanoseconds, One, Rank(|rows|, 50), t.p50, u.p50);
    RankUnique(rows, Nanoseconds, One, Rank(|rows|, 95), t.p95, u.p95);
    RankUnique(rows, Nanoseconds, One, Rank(|rows|, 99), t.p99, u.p99);
    RankUnique(rows, GigaItems, Nanoseconds, Rank(|rows|, 50), t.medianThroughput, u.medianThroughput);
    RankUnique(rows, MegaCost, Items, Rank(|rows|, 50), t.medianCost, u.medianCost);
  }

  lemma {:induction false} TrialsMeasured(rows: seq<Row>, id: string, engine: string, phase: string)
    requires Each(Measured, rows)
    ensures Each(Measured, Trials(rows, id, engine, phase))
  {
    var ts := Trials(rows, id, engine, phase);
    forall i | 0 <= i < |ts| ensures Measured(ts[i]) {
      var k := FilterFound(TrialTest(id, engine, phase), rows, i);
    }
  }

  /** The trials an engine needs for a scenario. */
  ghost predicate Complete(rows: seq<Row>, s: Scenario, engine: string) {
    && AllTrials(Trials(rows, s.scenarioId, engine, "warmup"), s.warmupTrials)
    && AllTrials(Trials(rows, s.scenarioId, engine, "measured"), s.measuredTrials)
    && s.measuredTrials > 0
  }

  lemma {:induction false} StatsWhen(warm: seq<Row>, measured: seq<Row>, s: Scenario, engine: string)
    requires Each(Measured, measured)
    ensures AllTrials(warm, s.warmupTrials) && AllTrials(measured, s.measuredTrials) && s.measuredTrials > 0 <==>
      Dense(warm, s.warmupTrials) && Dense(measured, s.measuredTrials) && Each(Divisible, measured) && measured != []
    ensures measured != [] ==> IsStats(measured, engine, StatsOf(engine, measured))
  {
    DenseExactly(warm, s.warmupTrials);
    DenseExactly(measured, s.measuredTrials);
    forall i | 0 <= i < |measured| ensures Divisible(measured[i]) {
      assert Measured(measured[i]);
    }
    if measured != [] {
      StatsExact(measured, engine);
    }
  }

  lemma {:induction false} EngineStatsOf(
      rows: seq<Row>, s: Scenario, engine: string, warm: seq<Row>, measured: seq<Row>)
    requires warm == RowsOfPhase(RowsOfEngine(rows, engine), WARMUP)
    requires measured == RowsOfPhase(RowsOfEngine(rows, engine), MEASURED)
    ensures EngineStats(rows, s, engine) ==
      if Dense(warm, s.warmupTrials) && Dense(measured, s.measuredTrials) && Each(Divisible, measured) && measured != []
      then Some(StatsOf(engine, measured)) else None
  {
  }

  /** The statistics of an engine exist exactly when all its planned trials are there, and are those of the
      measured ones. */
  lemma {:induction false} EngineStatsExactly(rows: seq<Row>, s: Scenario, engine: string)
    requires Each(Measured, rows)
    ensures var found := EngineStats(RowsFor(rows, s.scenarioId), s, engine);
      && (found.Some? <==> Complete(rows, s, engine))
      && (found.Some? ==> IsStats(Trials(rows, s.scenarioId, engine, "measured"), engine, found.value))
  {
    var warm, measured := Trials(rows, s.scenarioId, engine, "warmup"), Trials(rows, s.scenarioId, engine, "measured");
    TrialsSelected(rows, s.scenarioId, engine, "warmup");
    TrialsSelected(rows, s.scenarioId, engine, "measured");
    TrialsMeasured(rows, s.scenarioId, engine, "measured");
    EngineStatsOf(RowsFor(rows, s.scenarioId), s, engine, warm, measured);
    StatsWhen(warm, measured, s, engine);
  }

  /** The measured trials of the certified engine, and of the external one. */
  function NgkgTrials(rows: seq<Row>, s: Scenario): seq<Row> {
    Trials(rows, s.scenarioId, "ngkg-rust", "measured")
  }

  function JenaTrials(rows: seq<Row>, s: Scenario): seq<Row> {
    Trials(rows, s.scenarioId, "external-apache-jena", "measured")
  }

  ghost predicate OneRoot(rows: seq<Row>) {
    forall a, b :: a in rows && b in rows ==> a.artifactRootSha256 == b.artifactRootSha256
  }

  /** The duration that stands at the middle rank. */
  ghost predicate MedianDuration(rows: seq<Row>, m: int) {
    RanksAt(rows, Nanoseconds, One, Rank(|rows|, 50), m)
  }

  /** The external engine's median is at least so many thousandths of the certified engine's. */
  ghost predicate FasterBy(ngkg: seq<Row>, jena: seq<Row>, milliX: int) {
    exists a, b :: MedianDuration(ngkg, a) && MedianDuration(jena, b) && milliX * a <= b * 1000
  }

  /** Within the latency limit at rank 95, at the throughput floor and within the cost limit at rank 50. */
  ghost predicate WithinLimits(rows: seq<Row>, s: Scenario) {
    && (s.maximumP95Nanoseconds != 0 ==>
          HowManyUnder(rows, Nanoseconds, One, s.maximumP95Nanoseconds + 1) >= Rank(|rows|, 95))
    && HowManyUnder(rows, GigaItems, Nanoseconds, s.minimumThroughputPerSecond) < Rank(|rows|, 50)
    && (s.maximumCostMicroUsdPerMillion != 0 ==>
          HowManyUnder(rows, MegaCost, Items, s.maximumCostMicroUsdPerMillion + 1) >= Rank(|rows|, 50))
  }

  /** What a scenario needs: one artifact, all trials of all required engines, and every threshold. */
  ghost predicate Qualifies(rows: seq<Row>, s: Scenario) {
    && OneRoot(NgkgTrials(rows, s))
    && Complete(rows, s, "ngkg-rust") && (s.requireExternalJena ==> Complete(rows, s, "external-apache-jena"))
    && WithinLimits(NgkgTrials(rows, s), s)
    && (s.minimumSpeedupMilliX != 0 ==>
          s.requireExternalJena && FasterBy(NgkgTrials(rows, s), JenaTrials(rows, s), s.minimumSpeedupMilliX))
  }

  /** At most one value, or all values equal. */
  lemma {:induction false} OneValue<T>(values: seq<T>)
    ensures |Members(values)| <= 1 <==> forall i, j :: 0 <= i < |values| && 0 <= j < |values| ==> values[i] == values[j]
  {
    if |Members(values)| <= 1 {
      forall i, j | 0 <= i < |values| && 0 <= j < |values| ensures values[i] == values[j] {
        SizeOfSubset({values[i], values[j]}, Members(values));
      }
    }
    if values != [] && forall i, j :: 0 <= i < |values| && 0 <= j < |values| ==> values[i] == values[j] {
      assert values[0] in Members(values);
      assert Members(values) == {values[0]};
    }
  }

  lemma {:induction false} OneRootExactly(rows: seq<Row>)
    ensures |Members(Map(ArtifactOf, rows))| <= 1 <==> OneRoot(rows)
  {
    var roots := Map(ArtifactOf, rows);
    OneValue(roots);
    if |Members(roots)| <= 1 {
      forall a, b | a in rows && b in rows ensures a.artifactRootSha256 == b.artifactRootSha256 {
        var i :| 0 <= i < |rows| && rows[i] == a;
        var j :| 0 <= j < |rows| && rows[j] == b;
        assert roots[i] == roots[j];
      }
    }
    if OneRoot(rows) {
      forall i, j | 0 <= i < |rows| && 0 <= j < |rows| ensures roots[i] == roots[j] {
        assert rows[i] in rows && rows[j] in rows;
      }
    }
  }

  lemma {:induction false} Positives(rows: seq<Row>)
    requires Each(Measured, rows)
    ensures forall row :: row in rows ==> One(row) > 0 && Nanoseconds(row) > 0 && Items(row) > 0
  {
    forall row | row in rows ensures One(row) > 0 && Nanoseconds(row) > 0 && Items(row) > 0 {
      var i :| 0 <= i < |rows| && rows[i] == row;
      assert Measured(rows[i]);
    }
  }

  lemma {:induction false} NoneUnder(rows: seq<Row>, limit: int)
    requires Each(Measured, rows) && limit <= 1
    ensures HowManyUnder(rows, Nanoseconds, One, limit) == 0
  {
    Positives(rows);
    forall i | 0 <= i < |rows| ensures !Under(Nanoseconds, One, limit)(rows[i]) {
      assert rows[i] in rows;
    }
    FilterNone(Under(Nanoseconds, One, limit), rows);
  }

  lemma {:induction false} MedianPositive(rows: seq<Row>, m: int)
    requires Each(Measured, rows) && MedianDuration(rows, m)
    ensures m > 0
  {
    if m <= 0 { NoneUnder(rows, m + 1); }
  }

  lemma {:induction false} MedianUnique(rows: seq<Row>, m: int, n: int)
    requires Each(Measured, rows) && MedianDuration(rows, m) && MedianDuration(rows, n)
    ensures m == n
  {
    Positives(rows);
    RankUnique(rows, Nanoseconds, One, Rank(|rows|, 50), m, n);
  }

  lemma {:induction false} AtMostExactly(
      rows: seq<Row>, num: Row -> int, den: Row -> int, rank: nat, m: int, limit: int)
    requires RanksAt(rows, num, den, rank, m) && forall row :: row in rows ==> den(row) > 0
    ensures (limit != 0 ==> HowManyUnder(rows, num, den, limit + 1) >= rank) <==> limit == 0 || m <= limit
  {
    RankAgainst(rows, num, den, rank, m, limit);
  }

  lemma {:induction false} AtLeastExactly(
      rows: seq<Row>, num: Row -> int, den: Row -> int, rank: nat, m: int, limit: int)
    requires RanksAt(rows, num, den, rank, m) && forall row :: row in rows ==> den(row) > 0
    ensures HowManyUnder(rows, num, den, limit) < rank <==> m >= limit
  {
    RankAgainst(rows, num, den, rank, m, limit);
  }

  predicate StatsWithin(t: Stats, s: Scenario) {
    && (s.maximumP95Nanoseconds == 0 || t.p95 <= s.maximumP95Nanoseconds)
    && t.medianThroughput >= s.minimumThroughputPerSecond
    && (s.maximumCostMicroUsdPerMillion == 0 || t.medianCost <= s.maximumCostMicroUsdPerMillion)
  }

  lemma {:induction false} LimitsExactly(rows: seq<Row>, s: Scenario, t: Stats)
    requires Each(Measured, rows)
    requires RanksAt(rows, Nanoseconds, One, Rank(|rows|, 95), t.p95)
    requires RanksAt(rows, GigaItems, Nanoseconds, Rank(|rows|, 50), t.medianThroughput)
    requires RanksAt(rows, MegaCost, Items, Rank(|rows|, 50), t.medianCost)
    ensures WithinLimits(rows, s) <==> StatsWithin(t, s)
  {
    Positives(rows);
    AtMostExactly(rows, Nanoseconds, One, Rank(|rows|, 95), t.p95, s.maximumP95Nanoseconds);
    AtLeastExactly(rows, GigaItems, Nanoseconds, Rank(|rows|, 50), t.medianThroughput, s.minimumThroughputPerSecond);
    AtMostExactly(rows, MegaCost, Items, Rank(|rows|, 50), t.medianCost, s.maximumCostMicroUsdPerMillion);
  }

  lemma {:induction false} SpeedupExactly(ngkg: seq<Row>, jena: seq<Row>, a: int, b: int, milliX: int)
    requires Each(Measured, ngkg) && Each(Measured, jena) && MedianDuration(ngkg, a) && MedianDuration(jena, b)
    ensures a > 0 && (FloorDiv(b * 1000, a) >= milliX <==> FasterBy(ngkg, jena, milliX))
  {
    MedianPositive(ngkg, a);
    FloorBelow(b * 1000, a, milliX);
    forall x, y | MedianDuration(ngkg, x) && MedianDuration(jena, y) ensures x == a && y == b {
      MedianUnique(ngkg, x, a);
      MedianUnique(jena, y, b);
    }
  }

  /** The summary of a scenario, in terms of its trials. */
  ghost predicate SummaryOf(rows: seq<Row>, s: Scenario, o: Outcome) {
    && o.scenario == s && IsStats(NgkgTrials(rows, s), "ngkg-rust", o.ngkg)
    && (o.jena.Some? <==> s.requireExternalJena) && (o.speedup.Some? <==> s.requireExternalJena)
    && (o.jena.Some? ==> IsStats(JenaTrials(rows, s), "external-apache-jena", o.jena.value))
    && (o.jena.Some? && o.speedup.Some? ==>
          o.ngkg.p50 > 0 && o.speedup.value == FloorDiv(o.jena.value.p50 * 1000, o.ngkg.p50))
  }

  lemma {:induction false} MeetsWhen(s: Scenario, a: Stats, jena: Option<Stats>)
    requires jena.Some? <==> s.requireExternalJena
    ensures MeetsThresholds(Outcome(s, a, jena, Speedup(jena, a))) <==>
      && StatsWithin(a, s)
      && (s.minimumSpeedupMilliX != 0 ==>
            s.requireExternalJena && a.p50 != 0 && FloorDiv(jena.value.p50 * 1000, a.p50) >= s.minimumSpeedupMilliX)
  {
  }

  /** The statistics the scenario needs. */
  function OtherStats(rows: seq<Row>, s: Scenario): Option<Stats> {
    if s.requireExternalJena then EngineStats(rows, s, JENA) else None
  }

  lemma {:induction false} SummarizeWhen(rows: seq<Row>, s: Scenario)
    ensures var ngkg, jena := EngineStats(rows, s, NGKG), OtherStats(rows, s);
      && (Summarize(rows, s).Some? <==>
            && |Members(Map(ArtifactOf, MeasuredNgkg(rows)))| <= 1
            && ngkg.Some? && (s.requireExternalJena ==> jena.Some?)
            && MeetsThresholds(Outcome(s, ngkg.value, jena, Speedup(jena, ngkg.value))))
      && (Summarize(rows, s).Some? ==>
            Summarize(rows, s).value == Outcome(s, ngkg.value, jena, Speedup(jena, ngkg.value)))
  {
  }

  lemma {:induction false} StatsRank(rows: seq<Row>, engine: string, t: Stats)
    requires IsStats(rows, engine, t)
    ensures MedianDuration(rows, t.p50)
    ensures RanksAt(rows, Nanoseconds, One, Rank(|rows|, 95), t.p95)
    ensures RanksAt(rows, GigaItems, Nanoseconds, Rank(|rows|, 50), t.medianThroughput)
    ensures RanksAt(rows, MegaCost, Items, Rank(|rows|, 50), t.medianCost)
  {
  }

  /** The thresholds on the statistics are the thresholds on the trials. */
  lemma {:induction false} ThresholdsExactly(ngkg: seq<Row>, jena: seq<Row>, s: Scenario, a: Stats, b: Stats)
    requires Each(Measured, ngkg) && Each(Measured, jena) && IsStats(ngkg, NGKG, a) && IsStats(jena, JENA, b)
    ensures a.p50 > 0
    ensures FloorDiv(b.p50 * 1000, a.p50) >= s.minimumSpeedupMilliX <==> FasterBy(ngkg, jena, s.minimumSpeedupMilliX)
  {
    StatsRank(ngkg, NGKG, a);
    StatsRank(jena, JENA, b);
    SpeedupExactly(ngkg, jena, a.p50, b.p50, s.minimumSpeedupMilliX);
  }

  /** A scenario is summarized exactly when it qualifies. */
  lemma {:induction false} SummarizeExactly(rows: seq<Row>, s: Scenario)
    requires Each(Measured, rows)
    ensures Summarize(RowsFor(rows, s.scenarioId), s).Some? <==> Qualifies(rows, s)
  {
    var mine := RowsFor(rows, s.scenarioId);
    SummarizeWhen(mine, s);
    TrialsSelected(rows, s.scenarioId, NGKG, MEASURED);
    OneRootExactly(NgkgTrials(rows, s));
    EngineStatsExactly(rows, s, NGKG);
    EngineStatsExactly(rows, s, JENA);
    ScenarioMeasured(rows, s);
    var ngkg, jena := EngineStats(mine, s, NGKG), OtherStats(mine, s);
    if ngkg.Some? && (s.requireExternalJena ==> jena.Some?) {
      MeetsWhen(s, ngkg.value, jena);
      StatsRank(NgkgTrials(rows, s), NGKG, ngkg.value);
      LimitsExactly(NgkgTrials(rows, s), s, ngkg.value);
      if jena.Some? {
        ThresholdsExactly(NgkgTrials(rows, s), JenaTrials(rows, s), s, ngkg.value, jena.value);
      }
    }
  }

  lemma {:induction false} ScenarioMeasured(rows: seq<Row>, s: Scenario)
    requires Each(Measured, rows)
    ensures Each(Measured, NgkgTrials(rows, s)) && Each(Measured, JenaTrials(rows, s))
  {
    TrialsMeasured(rows, s.scenarioId, NGKG, MEASURED);
    TrialsMeasured(rows, s.scenarioId, JENA, MEASURED);
  }

  /** And its summary holds the numbers of its trials. */
  lemma {:induction false} SummaryExactly(rows: seq<Row>, s: Scenario)
    requires Each(Measured, rows) && Summarize(RowsFor(rows, s.scenarioId), s).Some?
    ensures SummaryOf(rows, s, Summarize(RowsFor(rows, s.scenarioId), s).value)
  {
    SummarizeWhen(RowsFor(rows, s.scenarioId), s);
    EngineStatsExactly(rows, s, NGKG);
    EngineStatsExactly(rows, s, JENA);
    ScenarioMeasured(rows, s);
    var ngkg := EngineStats(RowsFor(rows, s.scenarioId), s, NGKG).value;
    StatsRank(NgkgTrials(rows, s), NGKG, ngkg);
    MedianPositive(NgkgTrials(rows, s), ngkg.p50);
  }
}
