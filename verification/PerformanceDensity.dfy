/** Phase 40.13.23: the density test, in both directions. A scenario that passes it has exactly one
    row per planned trial; and the reports of successful workers always pass it. */
module PerformanceDensity {
  import opened Options
  import opened Sorting
  import opened Sequences
  import opened Loops
  import opened IntegerStatistics
  import opened PerformanceRun
  import opened PerformanceMerge

  function KeyTrial(k: Key): int { k.trial }

  /** The rows `stats` hands to `dense`. */
  function Selected(rows: seq<Row>, engine: string, phase: string): seq<Row> {
    RowsOfPhase(RowsOfEngine(rows, engine), phase)
  }

  lemma {:induction false} SelectedFound(rows: seq<Row>, id: string, engine: string, phase: string, k: nat)
    returns (i: nat)
    requires k < |Selected(RowsFor(rows, id), engine, phase)|
    ensures i < |rows| && rows[i] == Selected(RowsFor(rows, id), engine, phase)[k]
  {
    var a := RowsFor(rows, id);
    var b := RowsOfEngine(a, engine);
    var m := FilterFound(Compose(PhaseIs(phase), RowKey), b, k);
    var n := FilterFound(Compose(EngineIs(engine), RowKey), a, m);
    i := FilterFound(Compose(IdIs(id), RowKey), rows, n);
  }

  /** The same selection on keys, starting from all rows. */
  function KeysSelected(keys: seq<Key>, id: string, engine: string, phase: string): seq<Key> {
    Filter(PhaseIs(phase), Filter(EngineIs(engine), Filter(IdIs(id), keys)))
  }

  lemma {:induction false} SelectedKeys(rows: seq<Row>, id: string, engine: string, phase: string)
    ensures Map(RowKey, Selected(RowsFor(rows, id), engine, phase))
      == KeysSelected(Map(RowKey, rows), id, engine, phase)
  {
    FilterMap(IdIs(id), RowKey, rows);
    FilterMap(EngineIs(engine), RowKey, RowsFor(rows, id));
    FilterMap(PhaseIs(phase), RowKey, RowsOfEngine(RowsFor(rows, id), engine));
  }

  lemma {:induction false} KeysSelectedCount(keys: seq<Key>, k: Key)
    ensures multiset(KeysSelected(keys, k.scenarioId, k.engine, k.phase))[k] == multiset(keys)[k]
  {
    var a := Filter(IdIs(k.scenarioId), keys);
    FilterCount(IdIs(k.scenarioId), keys, k);
    FilterCount(EngineIs(k.engine), a, k);
    FilterCount(PhaseIs(k.phase), Filter(EngineIs(k.engine), a), k);
  }

  lemma {:induction false} KeysSelectedAll(keys: seq<Key>, id: string, engine: string, phase: string, k: Key)
    requires k in KeysSelected(keys, id, engine, phase)
    ensures k.scenarioId == id && k.engine == engine && k.phase == phase
  {
    var a := Filter(IdIs(id), keys);
    var b := Filter(EngineIs(engine), a);
    var c := Filter(PhaseIs(phase), b);
    var i :| 0 <= i < |c| && c[i] == k;
    var j := FilterFound(PhaseIs(phase), b, i);
    var m := FilterFound(EngineIs(engine), a, j);
    var n := FilterFound(IdIs(id), keys, m);
  }

  // ----- a dense selection is a bijection with the trial indices

  lemma {:induction false} IndicesCount(n: int, t: int)
    ensures multiset(Indices(n))[t] == if 0 <= t < n then 1 else 0
  {
    assert Distinct(Indices(n));
    DistinctCount(Indices(n), t);
    if 0 <= t < n { assert Indices(n)[t] == t; }
  }

  /** Selecting by engine and phase and then looking at the trials counts keys. */
  lemma {:induction false} TrialCount(rows: seq<Row>, k: Key)
    ensures multiset(Map(TrialOf, Selected(RowsFor(rows, k.scenarioId), k.engine, k.phase)))[k.trial]
      == multiset(Map(RowKey, rows))[k]
  {
    var selected := Selected(RowsFor(rows, k.scenarioId), k.engine, k.phase);
    var keys := KeysSelected(Map(RowKey, rows), k.scenarioId, k.engine, k.phase);
    SelectedKeys(rows, k.scenarioId, k.engine, k.phase);
    KeysSelectedCount(Map(RowKey, rows), k);
    forall y | y in keys && KeyTrial(y) == KeyTrial(k) ensures y == k {
      KeysSelectedAll(Map(RowKey, rows), k.scenarioId, k.engine, k.phase, y);
    }
    MapCount(KeyTrial, keys, k);
    assert Map(KeyTrial, Map(RowKey, selected)) == Map(TrialOf, selected);
  }

  /** If the selection is dense then every planned trial has exactly one row among all merged rows,
      and no other trial of that engine and phase has any. */
  lemma {:induction false} DenseMeansOnce(rows: seq<Row>, k: Key, count: int)
    requires Dense(Selected(RowsFor(rows, k.scenarioId), k.engine, k.phase), count)
    ensures multiset(Map(RowKey, rows))[k] == if 0 <= k.trial < count then 1 else 0
  {
    TrialCount(rows, k);
    IndicesCount(count, k.trial);
  }

  // ----- what a worker schedules

  function RequestTrial(q: Request): int { q.trial }

  lemma {:induction false} RequestsOf(d: Digests, s: Scenario, phase: string, count: int, i: nat)
    requires i < |PhaseRequests(d, s, phase, count)|
    ensures PhaseRequests(d, s, phase, count)[i].scenario == s && PhaseRequests(d, s, phase, count)[i].phase == phase
  {
    var m, n := FlatOrigin(TrialRequests(d, s, phase), Indices(count), i);
  }

  lemma {:induction false} ScenarioOfRequest(d: Digests, s: Scenario, i: nat)
    requires i < |ScenarioRequests(d)(s)|
    ensures ScenarioRequests(d)(s)[i].scenario == s
  {
    var w := PhaseRequests(d, s, WARMUP, s.warmupTrials);
    if i < |w| {
      RequestsOf(d, s, WARMUP, s.warmupTrials, i);
    } else {
      RequestsOf(d, s, MEASURED, s.measuredTrials, i - |w|);
    }
  }

  /** Whatever order the hash chose, each required engine is asked once per trial. */
  lemma {:induction false} OneRequestPerEngine(d: Digests, s: Scenario, phase: string, trial: int, engine: string)
    requires engine in Engines(s)
    ensures Filter(Compose(EngineIs(engine), RequestKey), TrialRequests(d, s, phase)(trial))
      == [Request(s, phase, trial, engine)]
  {
    var p, requests := Compose(EngineIs(engine), RequestKey), TrialRequests(d, s, phase)(trial);
    var first, second := Request(s, phase, trial, NGKG), Request(s, phase, trial, JENA);
    TrialRequestList(d, s, phase, trial);
    FilterOne(p, first);
    FilterOne(p, second);
    ComposeAt(EngineIs(engine), RequestKey, first);
    ComposeAt(EngineIs(engine), RequestKey, second);
    FilterPair(p, first, second);
    FilterPair(p, second, first);
    KnownEngine(s, engine);
  }

  lemma {:induction false} KnownEngine(s: Scenario, engine: string)
    requires engine in Engines(s)
    ensures engine == NGKG || (engine == JENA && s.requireExternalJena)
  {
    var i :| 0 <= i < |Engines(s)| && Engines(s)[i] == engine;
  }

  lemma {:induction false} TrialRequestList(d: Digests, s: Scenario, phase: string, trial: int)
    ensures var first, second := Request(s, phase, trial, NGKG), Request(s, phase, trial, JENA);
      TrialRequests(d, s, phase)(trial) ==
        if !s.requireExternalJena then [first]
        else if d.even(s.scenarioId, phase, trial) then [first, second] else [second, first]
  {
    var ask, order := AskEngine(s, phase, trial), EngineOrder(d, s, phase, trial);
    if !s.requireExternalJena {
      assert Engines(s) == [NGKG];
      assert Reversed([NGKG]) == Reversed([]) + [NGKG] == [NGKG];
      assert order == [NGKG];
    } else {
      assert Engines(s) == [NGKG, JENA];
      ReversedPair(NGKG, JENA);
    }
    assert Map(ask, order) == seq(|order|, i requires 0 <= i < |order| => ask(order[i]));
  }

  lemma {:induction false} ReversedPair(a: string, b: string)
    ensures Reversed([a, b]) == [b, a]
  {
    assert [a, b][1..] == [b] && [b][1..] == [];
    assert Reversed([b]) == Reversed([]) + [b];
    assert Reversed([a, b]) == Reversed([b]) + [a];
  }

  /** What one engine is asked in one phase. */
  function EngineRequests(d: Digests, s: Scenario, phase: string, count: int, engine: string): seq<Request> {
    Filter(Compose(EngineIs(engine), RequestKey), PhaseRequests(d, s, phase, count))
  }

  /** If each trial contributes exactly one element that passes, then those are numbered densely. */
  lemma {:induction false} OneEach(p: Request -> bool, ask: int -> seq<Request>, one: int -> Request, count: int)
    requires forall t :: 0 <= t < count ==> Filter(p, ask(t)) == [one(t)] && one(t).trial == t
    ensures Map(RequestTrial, Filter(p, Flat(ask, Indices(count)))) == Indices(count)
    decreases if count < 0 then 0 else count
  {
    if count > 0 {
      OneEach(p, ask, one, count - 1);
      FlatIndices(ask, count);
      assert Filter(p, ask(count - 1)) == [one(count - 1)];
      FilterConcat(p, Flat(ask, Indices(count - 1)), ask(count - 1));
      TrialsSnoc(Filter(p, Flat(ask, Indices(count - 1))), one(count - 1), count);
    }
  }

  lemma {:induction false} FlatIndices(ask: int -> seq<Request>, count: int)
    requires count > 0
    ensures Flat(ask, Indices(count)) == Flat(ask, Indices(count - 1)) + ask(count - 1)
  {
    var trials := Indices(count);
    assert trials[..count-1] == Indices(count - 1) && trials[count-1] == count - 1;
  }

  lemma {:induction false} TrialsSnoc(before: seq<Request>, q: Request, count: int)
    requires count > 0 && Map(RequestTrial, before) == Indices(count - 1) && q.trial == count - 1
    ensures Map(RequestTrial, before + [q]) == Indices(count)
  {
    MapSnoc(RequestTrial, before, q);
  }

  function Ask(s: Scenario, phase: string, engine: string): int -> Request {
    (trial: int) => Request(s, phase, trial, engine)
  }

  /** They are its trials 0, 1, ..., count - 1. */
  lemma {:induction false} EngineTrials(d: Digests, s: Scenario, phase: string, count: int, engine: string)
    requires engine in Engines(s)
    ensures Map(RequestTrial, EngineRequests(d, s, phase, count, engine)) == Indices(count)
  {
    var p, ask, one := Compose(EngineIs(engine), RequestKey), TrialRequests(d, s, phase), Ask(s, phase, engine);
    forall t | 0 <= t < count ensures Filter(p, ask(t)) == [one(t)] && one(t).trial == t {
      OneRequestPerEngine(d, s, phase, t, engine);
    }
    OneEach(p, ask, one, count);
  }

  function PlannedTrials(s: Scenario, phase: string): int {
    if phase == WARMUP then s.warmupTrials else s.measuredTrials
  }

  /** A phase filter keeps all requests of its own phase and none of another. */
  lemma {:induction false} PhaseOfRequests(
      d: Digests, s: Scenario, phase: string, count: int, engine: string, other: string)
    ensures Filter(Compose(PhaseIs(other), RequestKey), EngineRequests(d, s, phase, count, engine))
      == if other == phase then EngineRequests(d, s, phase, count, engine) else []
  {
    var all := PhaseRequests(d, s, phase, count);
    var mine := Filter(Compose(EngineIs(engine), RequestKey), all);
    var test := Compose(PhaseIs(other), RequestKey);
    forall i | 0 <= i < |mine| ensures test(mine[i]) == (other == phase) {
      var j := FilterFound(Compose(EngineIs(engine), RequestKey), all, i);
      RequestsOf(d, s, phase, count, j);
      ComposeAt(PhaseIs(other), RequestKey, mine[i]);
    }
    if other == phase {
      FilterAll(test, mine);
    } else {
      FilterNone(test, mine);
    }
  }

  function RequestsSelected(requests: seq<Request>, engine: string, phase: string): seq<Request> {
    Filter(Compose(PhaseIs(phase), RequestKey), Filter(Compose(EngineIs(engine), RequestKey), requests))
  }

  lemma {:induction false} ScenarioTrials(d: Digests, s: Scenario, engine: string, phase: string)
    requires engine in Engines(s) && (phase == WARMUP || phase == MEASURED)
    ensures Map(RequestTrial, RequestsSelected(ScenarioRequests(d)(s), engine, phase))
      == Indices(PlannedTrials(s, phase))
  {
    var w, m := PhaseRequests(d, s, WARMUP, s.warmupTrials), PhaseRequests(d, s, MEASURED, s.measuredTrials);
    var p, q := Compose(EngineIs(engine), RequestKey), Compose(PhaseIs(phase), RequestKey);
    FilterConcat(p, w, m);
    FilterConcat(q, Filter(p, w), Filter(p, m));
    PhaseOfRequests(d, s, WARMUP, s.warmupTrials, engine, phase);
    PhaseOfRequests(d, s, MEASURED, s.measuredTrials, engine, phase);
    EngineTrials(d, s, WARMUP, s.warmupTrials, engine);
    EngineTrials(d, s, MEASURED, s.measuredTrials, engine);
    if phase == WARMUP {
      assert Filter(p, w) + [] == Filter(p, w);
    } else {
      assert [] + Filter(p, m) == Filter(p, m);
    }
  }

  // ----- from the schedule to one worker's report

  function ScenarioId(s: Scenario): string { s.scenarioId }

  lemma {:induction false} SameIdSamePlace(xs: seq<Scenario>, i: nat, j: nat)
    requires Distinct(Map(ScenarioId, xs)) && i < |xs| && j < |xs|
    ensures i != j ==> xs[i].scenarioId != xs[j].scenarioId
  {
    var ids := Map(ScenarioId, xs);
    assert ids[i] == xs[i].scenarioId && ids[j] == xs[j].scenarioId;
    if i < j { assert ids[i] != ids[j]; }
    if j < i { assert ids[j] != ids[i]; }
  }

  lemma {:induction false} AssignedDistinct(p: Scenario -> bool, xs: seq<Scenario>)
    requires Distinct(Map(ScenarioId, xs))
    ensures Distinct(Map(ScenarioId, Filter(p, xs)))
  {
    if xs != [] {
      var n := |xs| - 1;
      var init := xs[..n];
      assert Map(ScenarioId, xs)[..n] == Map(ScenarioId, init);
      AssignedDistinct(p, init);
      if p(xs[n]) {
        LastIsNew(p, xs);
        DistinctSnoc(Map(ScenarioId, Filter(p, init)), xs[n].scenarioId);
        MapSnoc(ScenarioId, Filter(p, init), xs[n]);
      }
    }
  }

  lemma {:induction false} LastIsNew(p: Scenario -> bool, xs: seq<Scenario>)
    requires xs != [] && Distinct(Map(ScenarioId, xs))
    ensures xs[|xs|-1].scenarioId !in Map(ScenarioId, Filter(p, xs[..|xs|-1]))
  {
    var init, n := xs[..|xs|-1], |xs| - 1;
    var kept := Filter(p, init);
    forall k | 0 <= k < |kept| ensures Map(ScenarioId, kept)[k] != xs[n].scenarioId {
      var i := FilterFound(p, init, k);
      SameIdSamePlace(xs, i, n);
    }
  }

  /** Only the scenario's own requests carry its identifier. */
  lemma {:induction false} ScheduleOf(d: Digests, plan: Plan, s: Scenario)
    requires Distinct(Map(ScenarioId, plan.scenarios)) && s in plan.scenarios
    ensures Filter(Compose(IdIs(s.scenarioId), RequestKey), Schedule(d, plan, s.partition)) == ScenarioRequests(d)(s)
  {
    var mine, p := Assigned(plan, s.partition), Compose(IdIs(s.scenarioId), RequestKey);
    AssignedDistinct(PartitionTest(s.partition), plan.scenarios);
    var i :| 0 <= i < |plan.scenarios| && plan.scenarios[i] == s;
    var k := FilterKept(PartitionTest(s.partition), plan.scenarios, i);
    forall j | 0 <= j < |mine| && j != k ensures Filter(p, ScenarioRequests(d)(mine[j])) == [] {
      SameIdSamePlace(mine, j, k);
      OtherRequests(d, mine[j], s.scenarioId);
    }
    FilterFlatOnly(p, ScenarioRequests(d), mine, k);
    OwnRequests(d, s);
  }

  lemma {:induction false} OtherRequests(d: Digests, s: Scenario, id: string)
    requires s.scenarioId != id
    ensures Filter(Compose(IdIs(id), RequestKey), ScenarioRequests(d)(s)) == []
  {
    var requests, p := ScenarioRequests(d)(s), Compose(IdIs(id), RequestKey);
    forall i | 0 <= i < |requests| ensures !p(requests[i]) {
      ScenarioOfRequest(d, s, i);
      ComposeAt(IdIs(id), RequestKey, requests[i]);
    }
    FilterNone(p, requests);
  }

  lemma {:induction false} OwnRequests(d: Digests, s: Scenario)
    ensures Filter(Compose(IdIs(s.scenarioId), RequestKey), ScenarioRequests(d)(s)) == ScenarioRequests(d)(s)
  {
    var requests, p := ScenarioRequests(d)(s), Compose(IdIs(s.scenarioId), RequestKey);
    forall i | 0 <= i < |requests| ensures p(requests[i]) {
      ScenarioOfRequest(d, s, i);
      ComposeAt(IdIs(s.scenarioId), RequestKey, requests[i]);
    }
    FilterAll(p, requests);
  }

  /** A report holds one row for each scheduled trial, up to the final sort. */
  lemma {:induction false} ReportKeys(d: Digests, job: Job)
    requires JobAccepted(d, job)
    ensures multiset(Map(RowKey, ReportOf(d, job).observations))
      == multiset(Map(RequestKey, Schedule(d, job.plan, job.partition)))
  {
    var requests, found := Schedule(d, job.plan, job.partition), JobRows(d, job).value;
    MapPermutation(RowKey, SortRows(found), found);
    var a, b := Map(RowKey, found), Map(RequestKey, requests);
    forall i | 0 <= i < |requests| ensures a[i] == b[i] {
      assert Runner(job)(requests[i]) == Some(found[i]);
    }
    assert a == b;
  }

  lemma {:induction false} RequestKeysSelected(requests: seq<Request>, id: string, engine: string, phase: string)
    ensures Map(RequestKey, RequestsSelected(Filter(Compose(IdIs(id), RequestKey), requests), engine, phase))
      == KeysSelected(Map(RequestKey, requests), id, engine, phase)
  {
    var own := Filter(Compose(IdIs(id), RequestKey), requests);
    FilterMap(IdIs(id), RequestKey, requests);
    FilterMap(EngineIs(engine), RequestKey, own);
    FilterMap(PhaseIs(phase), RequestKey, Filter(Compose(EngineIs(engine), RequestKey), own));
  }

  lemma {:induction false} KeysSelectedPermutation(a: seq<Key>, b: seq<Key>, id: string, engine: string, phase: string)
    requires multiset(a) == multiset(b)
    ensures multiset(KeysSelected(a, id, engine, phase)) == multiset(KeysSelected(b, id, engine, phase))
  {
    FilterPermutation(IdIs(id), a, b);
    FilterPermutation(EngineIs(engine), Filter(IdIs(id), a), Filter(IdIs(id), b));
    FilterPermutation(PhaseIs(phase), Filter(EngineIs(engine), Filter(IdIs(id), a)),
                      Filter(EngineIs(engine), Filter(IdIs(id), b)));
  }

  /** Within one report, the selected trials are the planned indices in some order. */
  lemma {:induction false} ReportTrials(d: Digests, job: Job, s: Scenario, engine: string, phase: string)
    requires JobAccepted(d, job) && Distinct(Map(ScenarioId, job.plan.scenarios))
    requires s in job.plan.scenarios && s.partition == job.partition
    requires engine in Engines(s) && (phase == WARMUP || phase == MEASURED)
    ensures multiset(Map(TrialOf, Selected(RowsFor(ReportOf(d, job).observations, s.scenarioId), engine, phase)))
      == multiset(Indices(PlannedTrials(s, phase)))
  {
    var rows, requests := ReportOf(d, job).observations, Schedule(d, job.plan, job.partition);
    var selected := Selected(RowsFor(rows, s.scenarioId), engine, phase);
    var asked := RequestsSelected(ScenarioRequests(d)(s), engine, phase);
    ReportKeys(d, job);
    KeysSelectedPermutation(Map(RowKey, rows), Map(RequestKey, requests), s.scenarioId, engine, phase);
    SelectedKeys(rows, s.scenarioId, engine, phase);
    RequestKeysSelected(requests, s.scenarioId, engine, phase);
    ScheduleOf(d, job.plan, s);
    assert multiset(Map(RowKey, selected)) == multiset(Map(RequestKey, asked));
    MapPermutation(KeyTrial, Map(RowKey, selected), Map(RequestKey, asked));
    assert Map(KeyTrial, Map(RowKey, selected)) == Map(TrialOf, selected);
    assert Map(KeyTrial, Map(RequestKey, asked)) == Map(RequestTrial, asked);
    ScenarioTrials(d, s, engine, phase);
  }

  lemma {:induction false} PermutedIndicesDense(selected: seq<Row>, count: int)
    requires multiset(Map(TrialOf, selected)) == multiset(Indices(count))
    ensures Dense(selected, count) <==> count >= 0
  {
    var trials, sorted := Map(TrialOf, selected), Sorted(Map(TrialOf, selected));
    SameMembers(trials, Indices(count));
    SortedUnique(sorted, Indices(count), IntLe);
  }
}
