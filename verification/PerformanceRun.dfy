/** Phase 40.13.23: the partition worker, which runs every trial of every engine. */
module PerformanceRun {
  import opened HexSha
  import opened Options
  import opened Orders
  import opened Sorting
  import opened Sequences
  import opened Loops

  const NGKG := "ngkg-rust"
  const JENA := "external-apache-jena"
  const WARMUP := "warmup"
  const MEASURED := "measured"

  datatype Scenario = Scenario(
    scenarioId: string, family: string, expectedResultSha256: string, capacityGroup: string, scaleOrdinal: int,
    cacheState: string, concurrency: int, requestedNodes: int, requestedCpuMillis: int, requestedMemoryBytes: int,
    warmupTrials: int, measuredTrials: int, requireExternalJena: bool, maximumP95Nanoseconds: int,
    minimumThroughputPerSecond: int, minimumSpeedupMilliX: int, maximumCostMicroUsdPerMillion: int,
    inputSha256: string, partition: int)

  datatype Plan = Plan(
    runId: string, benchmarkInventorySha256: string, ngkgImageSha256: string, externalJenaImageSha256: Option<string>,
    hardwareSha256: string, pricingSha256: string, autoscalingEvidenceSha256: string, partitionCount: int,
    scenarios: seq<Scenario>)

  /** The thresholds of the published claims. */
  datatype Gates = Gates(
    geometricMeanMilliX: int, hotMedianMilliX: int, ingestMaximumSeconds: int, pathEdgesPerSecond: int,
    concurrentUsers: int)

  /** What the planner asks of the definitions. */
  datatype Policy = Policy(
    baselineFamilies: set<string>, warmupTrials: int, measuredTrials: int, datasetBytes: int, namedGraphs: int,
    triples: int, pathEdges: int, distinctDatasets: int, nodeCounts: set<int>, concurrencyLevels: set<int>)

  datatype Inventory = Inventory(
    ngkgVersion: string, jenaVersion: string, requiredFamilies: set<string>, policy: Policy, gates: Gates, rest: string)

  /** Evidence documents; `closed` says that one has exactly the required fields. */
  datatype Pricing = Pricing(
    closed: bool, complete: bool, formatVersion: int, currency: string, sourceUrlSha256: string, rest: string)
  datatype Hardware = Hardware(closed: bool, complete: bool, formatVersion: int, cgroupVersion: int, rest: string)
  datatype Autoscaling = Autoscaling(complete: bool, targetPercent: int, rest: string)

  /** The digests of the canonical JSON of each document (an absent descriptor is null), the first
      eight digest bytes of a scenario identity read as a big-endian number, and whether the number
      in the digest of a trial's name is even. */
  datatype Digests = Digests(
    descriptor: Option<string> -> Sha, inventory: Inventory -> Sha, pricing: Pricing -> Sha, hardware: Hardware -> Sha,
    autoscaling: Autoscaling -> Sha, plan: Plan -> Sha,
    bucket: string -> nat, even: (string, string, int) -> bool)

  // ----- one trial

  /** An observation as it is reported. */
  datatype Row = Row(
    engine: string, scenarioId: string, trialPhase: string, trial: int, durationNanoseconds: int, operations: int,
    workItems: int, inputBytes: int, outputItems: int, cpuTimeNanoseconds: int, peakRssBytes: int, bytesRead: int,
    bytesWritten: int, nodesActivated: int, cpuMillisActivated: int, ramBytesActivated: int, resultSha256: string,
    artifactRootSha256: Option<string>, autoscalingEvidenceSha256: string, costMicroUsd: int, complete: bool)

  /** What the driver printed: a row, and three fields that are dropped once checked. */
  datatype Output = Output(formatVersion: int, engineVersion: string, errorClass: Option<string>, row: Row)

  /** What one driver process did; `output` is absent unless it printed one object with exactly the
      required fields and integer counters. */
  datatype DriverRun = DriverRun(
    finished: bool, stdoutBytes: nat, stderrBytes: nat, returnCode: int, output: Option<Output>, wallNanoseconds: nat)

  datatype Request = Request(scenario: Scenario, phase: string, trial: int, engine: string)

  /** What identifies one trial of one engine. */
  datatype Key = Key(scenarioId: string, engine: string, phase: string, trial: int)

  function RequestKey(q: Request): Key {
    Key(q.scenario.scenarioId, q.engine, q.phase, q.trial)
  }

  function RowKey(row: Row): Key {
    Key(row.scenarioId, row.engine, row.trialPhase, row.trial)
  }

  predicate CountersValid(row: Row) {
    && row.trial >= 0 && row.durationNanoseconds >= 0 && row.operations >= 0 && row.workItems >= 0
    && row.inputBytes >= 0 && row.outputItems >= 0 && row.cpuTimeNanoseconds >= 0 && row.peakRssBytes >= 0
    && row.bytesRead >= 0 && row.bytesWritten >= 0 && row.nodesActivated >= 0 && row.cpuMillisActivated >= 0
    && row.ramBytesActivated >= 0 && row.costMicroUsd >= 0
  }

  /** `invoke`'s acceptance rules. */
  predicate Accepted(run: DriverRun, q: Request, version: string, maxBytes: int) {
    && run.finished && run.stdoutBytes <= maxBytes && run.stderrBytes <= maxBytes && run.returnCode == 0
    && run.output.Some?
    && var o := run.output.value;
       && o.formatVersion == 1 && o.engineVersion == version && RowKey(o.row) == RequestKey(q)
       && o.row.complete && o.errorClass.None? && CountersValid(o.row)
       && o.row.durationNanoseconds > 0 && o.row.operations > 0 && o.row.workItems > 0 && o.row.nodesActivated > 0
       && o.row.durationNanoseconds <= run.wallNanoseconds + 5_000_000_000
       && IsSha(o.row.resultSha256) && IsSha(o.row.autoscalingEvidenceSha256)
       && (o.row.artifactRootSha256.Some? ==> IsSha(o.row.artifactRootSha256.value))
  }

  /** The planned result, bound to the scaling evidence, inside the resource envelope. */
  predicate WithinPlan(plan: Plan, s: Scenario, row: Row) {
    && row.complete
    && row.resultSha256 == s.expectedResultSha256 && row.autoscalingEvidenceSha256 == plan.autoscalingEvidenceSha256
    && row.nodesActivated <= s.requestedNodes && row.cpuMillisActivated <= s.requestedCpuMillis
    && row.ramBytesActivated <= s.requestedMemoryBytes
  }

  /** What the worker establishes of a trial and the merger does not look at again. */
  predicate Measured(row: Row) {
    && CountersValid(row)
    && row.durationNanoseconds > 0 && row.operations > 0 && row.workItems > 0 && row.nodesActivated > 0
  }

  // ----- one worker

  /** Everything one worker invocation depends on; the drivers may answer anything. */
  datatype Job = Job(
    plan: Plan, inventory: Inventory, catalog: map<string, string>, catalogClosed: bool, pricing: Pricing,
    partition: int, workerId: string, hasJenaDriver: bool, timeoutSeconds: int, maxBytes: int,
    driver: (Request, Option<string>) -> DriverRun)

  /** `catalog["scenarios"].get(scenarioId)` */
  function Descriptor(job: Job, s: Scenario): Option<string> {
    if s.scenarioId in job.catalog then Some(job.catalog[s.scenarioId]) else None
  }

  function Version(inventory: Inventory, engine: string): string {
    if engine == NGKG then inventory.ngkgVersion else inventory.jenaVersion
  }

  function RunTrial(job: Job, q: Request): (r: Option<Row>)
    ensures r.Some? ==>
      RowKey(r.value) == RequestKey(q) && WithinPlan(job.plan, q.scenario, r.value) && Measured(r.value)
  {
    var run := job.driver(q, Descriptor(job, q.scenario));
    if !Accepted(run, q, Version(job.inventory, q.engine), job.maxBytes) then None
    else if !WithinPlan(job.plan, q.scenario, run.output.value.row) then None
    else Some(run.output.value.row)
  }

  function Runner(job: Job): Request -> Option<Row> {
    (q: Request) => RunTrial(job, q)
  }

  function Engines(s: Scenario): seq<string> {
    [NGKG] + if s.requireExternalJena then [JENA] else []
  }

  function Reversed(xs: seq<string>): seq<string> {
    if xs == [] then [] else Reversed(xs[1..]) + [xs[0]]
  }

  /** The hash decides which engine goes first. */
  function EngineOrder(d: Digests, s: Scenario, phase: string, trial: int): seq<string> {
    if d.even(s.scenarioId, phase, trial) then Engines(s) else Reversed(Engines(s))
  }

  function AskEngine(s: Scenario, phase: string, trial: int): string -> Request {
    (engine: string) => Request(s, phase, trial, engine)
  }

  function TrialRequests(d: Digests, s: Scenario, phase: string): int -> seq<Request> {
    (trial: int) => Map(AskEngine(s, phase, trial), EngineOrder(d, s, phase, trial))
  }

  /** `list(range(n))` */
  function Indices(n: int): (r: seq<int>)
    ensures |r| == if n < 0 then 0 else n
    ensures forall i :: 0 <= i < |r| ==> r[i] == i
  {
    if n <= 0 then [] else Indices(n - 1) + [n - 1]
  }

  function PhaseRequests(d: Digests, s: Scenario, phase: string, count: int): seq<Request> {
    Flat(TrialRequests(d, s, phase), Indices(count))
  }

  function ScenarioRequests(d: Digests): Scenario -> seq<Request> {
    (s: Scenario) => PhaseRequests(d, s, WARMUP, s.warmupTrials) + PhaseRequests(d, s, MEASURED, s.measuredTrials)
  }

  predicate InPartition(partition: int, s: Scenario) { s.partition == partition }

  function PartitionTest(partition: int): Scenario -> bool {
    (s: Scenario) => InPartition(partition, s)
  }

  function Assigned(plan: Plan, partition: int): seq<Scenario> {
    Filter(PartitionTest(partition), plan.scenarios)
  }

  /** All trials of one worker, in the order it runs them. */
  function Schedule(d: Digests, plan: Plan, partition: int): seq<Request> {
    Flat(ScenarioRequests(d), Assigned(plan, partition))
  }

  /** The checks before the first trial of a scenario. */
  predicate Ready(d: Digests, job: Job, s: Scenario) {
    && d.descriptor(Descriptor(job, s)) == s.inputSha256
    && (s.requireExternalJena ==> job.hasJenaDriver)
  }

  function ReadyTest(d: Digests, job: Job): Scenario -> bool {
    (s: Scenario) => Ready(d, job, s)
  }

  predicate SettingsValid(d: Digests, job: Job) {
    && 1 <= job.timeoutSeconds <= 86400 && 1024 <= job.maxBytes <= 64 * 1024 * 1024
    && d.inventory(job.inventory) == job.plan.benchmarkInventorySha256 && job.catalogClosed
    && d.pricing(job.pricing) == job.plan.pricingSha256 && job.pricing.complete
    && 0 <= job.partition < job.plan.partitionCount
  }

  /** The rows of a worker run, if every assigned scenario was ready and every trial good. */
  function RunAll(
      run: Request -> Option<Row>, ready: Scenario -> bool, ask: Scenario -> seq<Request>, scenarios: seq<Scenario>)
    : Option<seq<Row>> {
    if Each(ready, scenarios) then Traverse(run, Flat(ask, scenarios)) else None
  }

  function JobRows(d: Digests, job: Job): Option<seq<Row>> {
    RunAll(Runner(job), ReadyTest(d, job), ScenarioRequests(d), Assigned(job.plan, job.partition))
  }

  predicate KeyLe(a: Key, b: Key) {
    if a.scenarioId != b.scenarioId then Le(a.scenarioId, b.scenarioId)
    else if a.engine != b.engine then Le(a.engine, b.engine)
    else if a.phase != b.phase then Le(a.phase, b.phase)
    else a.trial <= b.trial
  }

  predicate RowLe(a: Row, b: Row) {
    KeyLe(RowKey(a), RowKey(b))
  }

  lemma {:induction false} RowOrder()
    ensures TotalPreorder(RowLe)
  {
    LeIsTotalOrder();
  }

  function SortRows(rows: seq<Row>): (r: seq<Row>)
    ensures multiset(r) == multiset(rows) && SortedBy(r, RowLe)
  {
    RowOrder();
    SortBy(rows, RowLe)
  }

  datatype Report = Report(
    formatVersion: int, planSha256: string, partition: int, workerId: string, observations: seq<Row>, complete: bool)

  predicate JobAccepted(d: Digests, job: Job) {
    SettingsValid(d, job) && JobRows(d, job).Some?
  }

  function ReportOf(d: Digests, job: Job): Report
    requires JobRows(d, job).Some?
  {
    Report(1, d.plan(job.plan), job.partition, job.workerId, SortRows(JobRows(d, job).value), true)
  }

  // ----- the worker's loops

  /** The loop over the engines of one trial. */
  method RunEngines(run: Request -> Option<Row>, requests: seq<Request>) returns (rows: Option<seq<Row>>)
    ensures rows == Traverse(run, requests)
  {
    var observations := [];
    assert requests[..0] == [];
    for i := 0 to |requests|
      invariant Traverse(run, requests[..i]) == Some(observations)
    {
      TraverseStep(run, requests, i, observations);
      var row := run(requests[i]);
      if row.None? { return None; }
      observations := observations + [row.value];
    }
    assert requests[..|requests|] == requests;
    return Some(observations);
  }

  /** The loop over the trials of one phase. */
  method RunPhase(run: Request -> Option<Row>, ask: int -> seq<Request>, count: int) returns (rows: Option<seq<Row>>)
    ensures rows == Traverse(run, Flat(ask, Indices(count)))
  {
    var observations, trials := [], Indices(count);
    assert trials[..0] == [];
    for i := 0 to |trials|
      invariant Traverse(run, Flat(ask, trials[..i])) == Some(observations)
    {
      TraverseFlatStep(run, ask, trials, i);
      var found := RunEngines(run, ask(trials[i]));
      if found.None? { return None; }
      observations := observations + found.value;
    }
    assert trials[..|trials|] == trials;
    return Some(observations);
  }

  /** Both phases of one scenario. */
  method RunScenario(d: Digests, run: Request -> Option<Row>, s: Scenario) returns (rows: Option<seq<Row>>)
    ensures rows == Traverse(run, ScenarioRequests(d)(s))
  {
    TraverseConcat(run, PhaseRequests(d, s, WARMUP, s.warmupTrials), PhaseRequests(d, s, MEASURED, s.measuredTrials));
    var warm := RunPhase(run, TrialRequests(d, s, WARMUP), s.warmupTrials);
    if warm.None? { return None; }
    var measured := RunPhase(run, TrialRequests(d, s, MEASURED), s.measuredTrials);
    if measured.None? { return None; }
    return Some(warm.value + measured.value);
  }

  /** The loop over the assigned scenarios. */
  method RunScenarios(d: Digests, run: Request -> Option<Row>, ready: Scenario -> bool, scenarios: seq<Scenario>)
    returns (rows: Option<seq<Row>>)
    ensures rows == RunAll(run, ready, ScenarioRequests(d), scenarios)
  {
    var observations: seq<Row> := [];
    assert scenarios[..0] == [];
    for i := 0 to |scenarios|
      invariant Each(ready, scenarios[..i])
      invariant Traverse(run, Flat(ScenarioRequests(d), scenarios[..i])) == Some(observations)
    {
      EachStep(ready, scenarios, i);
      TraverseFlatStep(run, ScenarioRequests(d), scenarios, i);
      if !ready(scenarios[i]) { return None; }
      var found := RunScenario(d, run, scenarios[i]);
      if found.None? { return None; }
      observations := observations + found.value;
    }
    assert scenarios[..|scenarios|] == scenarios;
    return Some(observations);
  }

  method RunPartition(d: Digests, job: Job) returns (report: Option<Report>)
    ensures report == if JobAccepted(d, job) then Some(ReportOf(d, job)) else None
  {
    if !SettingsValid(d, job) { return None; }
    var rows := RunScenarios(d, Runner(job), ReadyTest(d, job), Assigned(job.plan, job.partition));
    if rows.None? { return None; }
    return Some(Report(1, d.plan(job.plan), job.partition, job.workerId, SortRows(rows.value), true));
  }
}
