/** Phase 40.13.23: exactly which driver answers the worker accepts, which requests it makes, and so when it
    succeeds. */
module PerformanceWorker {
  import opened HexSha
  import opened Options
  import opened Sorting
  import opened Sequences
  import opened Loops
  import opened PerformanceRun
  import opened PerformanceDensity

  // ----- one trial

  /** The driver ended well within the limits and printed this row, in this version, without an error. */
  predicate Printed(run: DriverRun, maxBytes: int, version: string, row: Row) {
    && run.finished && run.returnCode == 0 && run.stdoutBytes <= maxBytes && run.stderrBytes <= maxBytes
    && run.output == Some(Output(1, version, None, row))
  }

  /** The row took time, did work on some node, has no negative counter, and did not take longer than the
      worker waited, give or take five seconds. */
  predicate Plausible(row: Row, waited: nat) {
    && 0 < row.durationNanoseconds <= waited + 5_000_000_000
    && row.operations > 0 && row.workItems > 0 && row.nodesActivated > 0
    && forall i :: 0 <= i < |OtherCounters(row)| ==> OtherCounters(row)[i] >= 0
  }

  function OtherCounters(row: Row): seq<int> {
    [row.trial, row.inputBytes, row.outputItems, row.cpuTimeNanoseconds, row.peakRssBytes, row.bytesRead,
     row.bytesWritten, row.cpuMillisActivated, row.ramBytesActivated, row.costMicroUsd]
  }

  /** The row is of the trial that was asked for, reached the planned result under the planned scaling
      evidence, and stayed within the requested nodes, cores and memory. */
  predicate Fits(row: Row, plan: Plan, s: Scenario, phase: string, trial: int, engine: string) {
    && (row.scenarioId, row.trialPhase, row.trial, row.engine) == (s.scenarioId, phase, trial, engine)
    && row.complete && IsSha(row.resultSha256) && row.resultSha256 == s.expectedResultSha256
    && IsSha(row.autoscalingEvidenceSha256) && row.autoscalingEvidenceSha256 == plan.autoscalingEvidenceSha256
    && (row.artifactRootSha256.Some? ==> IsSha(row.artifactRootSha256.value))
    && row.nodesActivated <= s.requestedNodes && row.cpuMillisActivated <= s.requestedCpuMillis
    && row.ramBytesActivated <= s.requestedMemoryBytes
  }

  function PinnedVersion(inventory: Inventory, engine: string): string {
    if engine == "ngkg-rust" then inventory.ngkgVersion else inventory.jenaVersion
  }

  /** What the driver answers to a request: on the catalog's descriptor, or on none. */
  function Answer(job: Job, q: Request): DriverRun {
    job.driver(q, if q.scenario.scenarioId in job.catalog then Some(job.catalog[q.scenario.scenarioId]) else None)
  }

  /** A row is accepted exactly if the driver printed it in the pinned version and it is plausible and fits. */
  lemma {:induction false} RunTrialExactly(job: Job, q: Request, row: Row)
    ensures RunTrial(job, q) == Some(row) <==>
      && Printed(Answer(job, q), job.maxBytes, PinnedVersion(job.inventory, q.engine), row)
      && Plausible(row, Answer(job, q).wallNanoseconds)
      && Fits(row, job.plan, q.scenario, q.phase, q.trial, q.engine)
  {
    CountersListed(row);
  }

  lemma {:induction false} CountersListed(row: Row)
    ensures CountersValid(row) <==>
      && row.durationNanoseconds >= 0 && row.operations >= 0 && row.workItems >= 0 && row.nodesActivated >= 0
      && forall i :: 0 <= i < |OtherCounters(row)| ==> OtherCounters(row)[i] >= 0
  {
    var counters := OtherCounters(row);
    assert counters[0] == row.trial && counters[1] == row.inputBytes && counters[2] == row.outputItems;
    assert counters[3] == row.cpuTimeNanoseconds && counters[4] == row.peakRssBytes && counters[5] == row.bytesRead;
    assert counters[6] == row.bytesWritten && counters[7] == row.cpuMillisActivated;
    assert counters[8] == row.ramBytesActivated && counters[9] == row.costMicroUsd;
  }

  // ----- the requests of one worker

  /** The engines a scenario is run on. */
  predicate Asked(s: Scenario, engine: string) {
    engine == "ngkg-rust" || (engine == "external-apache-jena" && s.requireExternalJena)
  }

  /** The request is for a planned trial of a scenario. */
  predicate Planned(q: Request) {
    && Asked(q.scenario, q.engine)
    && ((q.phase == "warmup" && 0 <= q.trial < q.scenario.warmupTrials)
        || (q.phase == "measured" && 0 <= q.trial < q.scenario.measuredTrials))
  }

  lemma {:induction false} TrialAsks(d: Digests, s: Scenario, phase: string, trial: int, q: Request)
    ensures q in TrialRequests(d, s, phase)(trial) <==>
      q.scenario == s && q.phase == phase && q.trial == trial && Asked(s, q.engine)
  {
    TrialRequestList(d, s, phase, trial);
    var asked := TrialRequests(d, s, phase)(trial);
    if q in asked {
      var i :| 0 <= i < |asked| && asked[i] == q;
    }
    if q.scenario == s && q.phase == phase && q.trial == trial && Asked(s, q.engine) {
      assert q == Request(s, phase, trial, q.engine);
      assert asked[0] in asked && (s.requireExternalJena ==> asked[1] in asked);
    }
  }

  lemma {:induction false} PhaseAsks(d: Digests, s: Scenario, phase: string, count: int, q: Request)
    ensures q in PhaseRequests(d, s, phase, count) <==>
      q.scenario == s && q.phase == phase && 0 <= q.trial < count && Asked(s, q.engine)
  {
    var all, trials := PhaseRequests(d, s, phase, count), Indices(count);
    if q in all {
      var k :| 0 <= k < |all| && all[k] == q;
      var m, n := FlatOrigin(TrialRequests(d, s, phase), trials, k);
      assert q in TrialRequests(d, s, phase)(trials[m]);
      TrialAsks(d, s, phase, trials[m], q);
    }
    if q.scenario == s && q.phase == phase && 0 <= q.trial < count && Asked(s, q.engine) {
      TrialAsks(d, s, phase, q.trial, q);
      var asked := TrialRequests(d, s, phase)(q.trial);
      var n :| 0 <= n < |asked| && asked[n] == q;
      assert trials[q.trial] == q.trial;
      FlatListed(TrialRequests(d, s, phase), trials, q.trial, n);
    }
  }

  lemma {:induction false} ScenarioAsks(d: Digests, s: Scenario, q: Request)
    ensures q in ScenarioRequests(d)(s) <==> q.scenario == s && Planned(q)
  {
    PhaseAsks(d, s, "warmup", s.warmupTrials, q);
    PhaseAsks(d, s, "measured", s.measuredTrials, q);
  }

  /** The worker asks exactly for the planned trials of the scenarios of its partition. */
  lemma {:induction false} ScheduleExactly(d: Digests, plan: Plan, partition: int, q: Request)
    ensures q in Schedule(d, plan, partition) <==>
      q.scenario in plan.scenarios && q.scenario.partition == partition && Planned(q)
  {
    var mine, all := Assigned(plan, partition), Schedule(d, plan, partition);
    if q in all {
      var k :| 0 <= k < |all| && all[k] == q;
      var m, n := FlatOrigin(ScenarioRequests(d), mine, k);
      var i := FilterFound(PartitionTest(partition), plan.scenarios, m);
      assert q in ScenarioRequests(d)(mine[m]);
      ScenarioAsks(d, mine[m], q);
      assert plan.scenarios[i] in plan.scenarios;
    }
    if q.scenario in plan.scenarios && q.scenario.partition == partition && Planned(q) {
      var i :| 0 <= i < |plan.scenarios| && plan.scenarios[i] == q.scenario;
      var m := FilterKept(PartitionTest(partition), plan.scenarios, i);
      ScenarioAsks(d, mine[m], q);
      var asked := ScenarioRequests(d)(mine[m]);
      var n :| 0 <= n < |asked| && asked[n] == q;
      FlatListed(ScenarioRequests(d), mine, m, n);
    }
  }

  // ----- when a worker succeeds

  /** The driver gives an acceptable answer to the request. */
  ghost predicate AnsweredWell(job: Job, q: Request) {
    exists row ::
      && Printed(Answer(job, q), job.maxBytes, PinnedVersion(job.inventory, q.engine), row)
      && Plausible(row, Answer(job, q).wallNanoseconds)
      && Fits(row, job.plan, q.scenario, q.phase, q.trial, q.engine)
  }

  lemma {:induction false} RunnerExactly(job: Job, q: Request)
    ensures Runner(job)(q).Some? <==> AnsweredWell(job, q)
  {
    if Runner(job)(q).Some? {
      RunTrialExactly(job, q, Runner(job)(q).value);
    }
    if AnsweredWell(job, q) {
      var row :| Printed(Answer(job, q), job.maxBytes, PinnedVersion(job.inventory, q.engine), row)
        && Plausible(row, Answer(job, q).wallNanoseconds)
        && Fits(row, job.plan, q.scenario, q.phase, q.trial, q.engine);
      RunTrialExactly(job, q, row);
    }
  }

  /** The catalog's descriptor has the planned digest, and a required external driver is there. */
  predicate CanStart(d: Digests, job: Job, s: Scenario) {
    && s.inputSha256 == d.descriptor(if s.scenarioId in job.catalog then Some(job.catalog[s.scenarioId]) else None)
    && (s.requireExternalJena ==> job.hasJenaDriver)
  }

  ghost predicate ScenarioGood(d: Digests, job: Job, s: Scenario) {
    CanStart(d, job, s) && forall q: Request :: q.scenario == s && Planned(q) ==> AnsweredWell(job, q)
  }

  /** The settings of the worker are in range, and its documents are the planned ones. */
  predicate GoodSettings(d: Digests, job: Job) {
    && 1 <= job.timeoutSeconds <= 86400 && 1024 <= job.maxBytes <= 67_108_864 && job.catalogClosed
    && job.plan.benchmarkInventorySha256 == d.inventory(job.inventory)
    && job.plan.pricingSha256 == d.pricing(job.pricing) && job.pricing.complete
    && 0 <= job.partition < job.plan.partitionCount
  }

  lemma {:induction false} AllRun(run: Request -> Option<Row>, qs: seq<Request>)
    ensures Traverse(run, qs).Some? <==> forall q :: q in qs ==> run(q).Some?
  {
    if Traverse(run, qs).Some? {
      forall q | q in qs ensures run(q).Some? {
        var i :| 0 <= i < |qs| && qs[i] == q;
      }
    } else {
      var i :| 0 <= i < |qs| && run(qs[i]).None?;
      assert qs[i] in qs;
    }
  }

  lemma {:induction false} AllReady(d: Digests, job: Job)
    ensures Each(ReadyTest(d, job), Assigned(job.plan, job.partition)) <==>
      forall s :: s in job.plan.scenarios && s.partition == job.partition ==> CanStart(d, job, s)
  {
    var mine := Assigned(job.plan, job.partition);
    forall s ensures ReadyTest(d, job)(s) <==> CanStart(d, job, s) {
    }
    if Each(ReadyTest(d, job), mine) {
      forall s | s in job.plan.scenarios && s.partition == job.partition ensures CanStart(d, job, s) {
        var i :| 0 <= i < |job.plan.scenarios| && job.plan.scenarios[i] == s;
        var m := FilterKept(PartitionTest(job.partition), job.plan.scenarios, i);
        assert ReadyTest(d, job)(mine[m]);
      }
    }
    if forall s :: s in job.plan.scenarios && s.partition == job.partition ==> CanStart(d, job, s) {
      forall m | 0 <= m < |mine| ensures ReadyTest(d, job)(mine[m]) {
        var i := FilterFound(PartitionTest(job.partition), job.plan.scenarios, m);
        assert job.plan.scenarios[i] in job.plan.scenarios;
      }
    }
  }

  lemma {:induction false} AllAnswered(d: Digests, job: Job)
    ensures Traverse(Runner(job), Schedule(d, job.plan, job.partition)).Some? <==>
      forall q: Request :: q.scenario in job.plan.scenarios && q.scenario.partition == job.partition && Planned(q) ==>
        AnsweredWell(job, q)
  {
    AllRun(Runner(job), Schedule(d, job.plan, job.partition));
    forall q
      ensures q in Schedule(d, job.plan, job.partition) <==>
        q.scenario in job.plan.scenarios && q.scenario.partition == job.partition && Planned(q)
      ensures Runner(job)(q).Some? <==> AnsweredWell(job, q)
    {
      ScheduleExactly(d, job.plan, job.partition, q);
      RunnerExactly(job, q);
    }
  }

  /** A worker reports exactly if its settings are good and every scenario of its partition is: it can start,
      and every planned trial of every required engine was answered well. */
  lemma {:induction false} WorkerSucceedsIff(d: Digests, job: Job)
    ensures JobAccepted(d, job) <==>
      && GoodSettings(d, job)
      && forall s :: s in job.plan.scenarios && s.partition == job.partition ==> ScenarioGood(d, job, s)
  {
    AllReady(d, job);
    AllAnswered(d, job);
  }
}
