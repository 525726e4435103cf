/** Phase 40.13.24 from the scenario definitions to the certificate: good observations are certified, and a
    certificate says of every definition that it was met, and names what it was issued for. */
module ReleaseCertificate {
  import opened Options
  import opened Orders
  import opened Sorting
  import opened Sequences
  import opened ReportDirectory
  import opened ReleasePlan
  import opened ReleaseRun
  import opened ReleaseProtocol
  import opened ReleaseTeam

  // ----- when a worker succeeds

  /** The worker may run the scenario: a disruptive one needs the flag and an approval file whose digest is
      the planned one. */
  predicate MayRun(d: Digests, job: Job, disruptive: bool, approval: Option<string>) {
    disruptive ==> job.allowDisruptive && approval == FileDigest(d, job.approvalFile)
  }

  function FileDigest(d: Digests, file: Option<string>): Option<string> {
    match file
    case Some(content) => Some(d.file(content))
    case None => None
  }

  /** The observation is of this scenario, with the planned result before and after recovery, and enough of
      everything. */
  predicate Satisfies(
    o: Observation, id: string, provider: string, gate: string, output: string, nodes: int, cpuMillis: int,
    memoryBytes: int, seconds: int)
  {
    && (o.scenarioId, o.provider, o.gate) == (id, provider, gate)
    && (o.outputSha256, o.postRecoveryResultSha256) == (output, output)
    && o.activatedNodes >= nodes && o.activatedCpuMillis >= cpuMillis
    && o.activatedMemoryBytes >= memoryBytes && o.durationSeconds >= seconds
    && o.recoveredFailures == o.injectedFailures && o.complete
  }

  predicate SatisfiesScenario(o: Observation, s: Scenario) {
    Satisfies(o, s.scenarioId, s.provider, s.gate, s.expectedOutputSha256, s.minimumNodes, s.minimumCpuMillis,
              s.minimumMemoryBytes, s.minimumDurationSeconds)
  }

  /** The driver ended well on the catalog's descriptor and printed this observation. */
  predicate Answered(job: Job, s: Scenario, o: Observation) {
    s.scenarioId in job.catalog && job.driver(s, job.catalog[s.scenarioId]) == DriverRun(false, 0, Some(o))
  }

  /** An observation is kept exactly if the worker may run the scenario, and the driver ended well and printed
      an observation that satisfies it. */
  lemma {:induction false} RunScenarioExactly(d: Digests, job: Job, s: Scenario, o: Observation)
    ensures RunScenario(d, job, s) == Some(o) <==>
      MayRun(d, job, s.disruptive, s.approvalEvidenceSha256) && Answered(job, s, o) && SatisfiesScenario(o, s)
  {
  }

  ghost predicate ScenarioGood(d: Digests, job: Job, s: Scenario) {
    && MayRun(d, job, s.disruptive, s.approvalEvidenceSha256)
    && exists o :: Answered(job, s, o) && SatisfiesScenario(o, s)
  }

  lemma {:induction false} RunnerExactly(d: Digests, job: Job, s: Scenario)
    ensures Runner(d, job)(s).Some? <==> ScenarioGood(d, job, s)
  {
    if Runner(d, job)(s).Some? {
      RunScenarioExactly(d, job, s, Runner(d, job)(s).value);
    }
    if ScenarioGood(d, job, s) {
      var o :| Answered(job, s, o) && SatisfiesScenario(o, s);
      RunScenarioExactly(d, job, s, o);
    }
  }

  lemma {:induction false} AllRun(run: Scenario -> Option<Observation>, xs: seq<Scenario>)
    ensures Traverse(run, xs).Some? <==> forall s :: s in xs ==> run(s).Some?
  {
    if Traverse(run, xs).Some? {
      forall s | s in xs ensures run(s).Some? {
        var i :| 0 <= i < |xs| && xs[i] == s;
      }
    } else {
      var i :| 0 <= i < |xs| && run(xs[i]).None?;
      assert xs[i] in xs;
    }
  }

  /** A worker reports exactly if its settings are good and every scenario of its partition is. */
  lemma {:induction false} WorkerSucceedsIff(d: Digests, job: Job)
    ensures JobAccepted(d, job) <==>
      && 0 <= job.partition < job.plan.partitionCount && job.workerId != "" && job.timeoutSeconds >= 1
      && forall s :: s in job.plan.scenarios && s.partition == job.partition ==> ScenarioGood(d, job, s)
  {
    var mine := Assigned(job.plan.scenarios, job.partition);
    AllRun(Runner(d, job), mine);
    forall s | s in mine ensures Runner(d, job)(s).Some? <==> ScenarioGood(d, job, s) {
      RunnerExactly(d, job, s);
    }
  }

  // ----- good observations are certified

  /** One worker for each partition of the built plan, under different names, and every driver answers well. */
  ghost predicate GoodTeam(d: Digests, q: Request, xs: seq<Definition>, jobs: seq<Job>)
    requires q.partitionCount > 0
  {
    && |jobs| == q.partitionCount
    && (forall i :: 0 <= i < |jobs| ==> GoodJob(d, PlanOf(d, q, xs).plan, jobs[i]))
    && forall i, j :: 0 <= i < j < |jobs| ==>
         jobs[i].partition != jobs[j].partition && jobs[i].workerId != jobs[j].workerId
  }

  ghost predicate GoodJob(d: Digests, plan: Plan, job: Job) {
    && job.plan == plan && 0 <= job.partition < plan.partitionCount && job.workerId != "" && job.timeoutSeconds >= 1
    && forall s :: s in plan.scenarios && s.partition == job.partition ==> ScenarioGood(d, job, s)
  }

  lemma {:induction false} GoodAnswersAreCertified(d: Digests, q: Request, xs: seq<Definition>, jobs: seq<Job>)
    returns (reports: seq<Report>)
    requires Plannable(q, xs) && GoodTeam(d, q, xs, jobs)
    ensures |reports| == |jobs| && forall i :: 0 <= i < |jobs| ==> Worker(d)(jobs[i]) == Some(reports[i])
    ensures MergeAccepted(d, PlanOf(d, q, xs).plan, reports)
  {
    forall i | 0 <= i < |jobs| ensures JobAccepted(d, jobs[i]) {
      WorkerSucceedsIff(d, jobs[i]);
    }
    reports := Traverse(Worker(d), jobs).value;
    TeamProduced(d, PlanOf(d, q, xs).plan, jobs, reports);
    WorkerReportsAcceptedIffFullTeam(d, q, xs, jobs, reports);
  }

  lemma {:induction false} TeamProduced(d: Digests, plan: Plan, jobs: seq<Job>, reports: seq<Report>)
    requires Traverse(Worker(d), jobs) == Some(reports) && |jobs| == plan.partitionCount
    requires forall i :: 0 <= i < |jobs| ==> jobs[i].plan == plan
    requires forall i, j :: 0 <= i < j < |jobs| ==>
      jobs[i].partition != jobs[j].partition && jobs[i].workerId != jobs[j].workerId
    ensures ProducedBy(d, plan, jobs, reports) && FullTeam(reports, plan.partitionCount)
  {
    forall i | 0 <= i < |jobs| ensures JobAccepted(d, jobs[i]) && reports[i] == ReportOf(d, jobs[i]) {
      assert Worker(d)(jobs[i]) == Some(reports[i]);
    }
    assert Distinct(Map(PartitionOf, reports));
    assert Distinct(Map(WorkerOf, reports));
  }

  // ----- a certificate, definition by definition

  /** After any history, a certificate over a built plan means of each definition: exactly one merged
      observation is of it and satisfies it, and the worker that made it was allowed to. */
  lemma {:induction false} EveryDefinitionMet(
      d: Digests, q: Request, xs: seq<Definition>, events: seq<Event<Job>>, i: nat)
    returns (e: nat, k: nat)
    requires Plannable(q, xs) && i < |xs|
    requires Issued(d, PlanOf(d, q, xs).plan, events) && PlanDigestUnique(d, PlanOf(d, q, xs).plan, events)
    ensures k < |Rows(Merged(d, events))|
    ensures Satisfies(Rows(Merged(d, events))[k].item, xs[i].scenarioId, xs[i].provider, xs[i].gate,
                      xs[i].expectedOutputSha256, xs[i].minimumNodes, xs[i].minimumCpuMillis,
                      xs[i].minimumMemoryBytes, xs[i].minimumDurationSeconds)
    ensures e < |events| && events[e].WorkerRan? && JobAccepted(d, events[e].job)
    ensures events[e].job.partition == Rows(Merged(d, events))[k].partition
      == d.bucket(xs[i].scenarioId + "\0" + d.descriptor(xs[i].descriptor)) % q.partitionCount
    ensures MayRun(d, events[e].job, xs[i].disruptive, xs[i].approvalEvidenceSha256)
    ensures forall j :: 0 <= j < |Rows(Merged(d, events))| && j != k ==>
      Rows(Merged(d, events))[j].item.scenarioId != xs[i].scenarioId
  {
    var s := ScenarioOf(d, q.partitionCount, xs[i]);
    DefinitionPlanned(d, q, xs, i);
    PlannedIdsIncrease(d, q, xs);
    e, k := CertifiedScenario(d, PlanOf(d, q, xs).plan, events, s);
    RunScenarioExactly(d, events[e].job, s, Rows(Merged(d, events))[k].item);
  }

  /** The certificate over a built plan names the release, the digests of the two documents the planner was
      given, and all providers and gates. */
  lemma {:induction false} CertificateNames(d: Digests, q: Request, xs: seq<Definition>, reports: seq<Report>)
    requires Plannable(q, xs) && MergeAccepted(d, PlanOf(d, q, xs).plan, reports)
    ensures var c := CertificateOf(d, PlanOf(d, q, xs).plan, Observed(Rows(reports)));
      && c.planSha256 == d.plan(PlanOf(d, q, xs).plan) && c.releaseSha256 == q.releaseSha256
      && c.performanceCertificateSha256 == d.performance(q.performance)
      && c.semanticEvidenceSha256 == d.semantic(q.semantic)
      && c.qualifiedProviders == PROVIDER_NAMES && c.qualifiedGates == GATE_NAMES
  {
    BarrierSuffices(d, q, xs, reports);
    NamesInOrder(d, PlanOf(d, q, xs).plan, Observed(Rows(reports)));
  }

  lemma {:induction false} NamesInOrder(d: Digests, plan: Plan, observed: map<string, Observation>)
    requires ProvidersIn(observed) == PROVIDERS && GatesIn(observed) == GATES
    ensures CertificateOf(d, plan, observed).qualifiedProviders == PROVIDER_NAMES
    ensures CertificateOf(d, plan, observed).qualifiedGates == GATE_NAMES
  {
    ProviderOrder();
    GateOrder();
    SortedNames(PROVIDER_NAMES, PROVIDERS);
    SortedNames(GATE_NAMES, GATES);
  }

  lemma {:induction false} SortedNames(names: seq<string>, members: set<string>)
    requires StrictlyIncreasing(names) && members == Members(names)
    ensures SortedSet(members) == names
  {
    SortedSetIncreasing(members);
    DistinctNames(names);
    StrictlyIncreasingUnique(names, SortedSet(members));
  }

  lemma {:induction false} DistinctNames(names: seq<string>)
    requires StrictlyIncreasing(names)
    ensures |Members(names)| == |names|
  {
    assert forall i, j :: 0 <= i < j < |names| ==> Lt(names[i], names[j]);
    assert Distinct(names);
    DistinctBySize(names);
  }
}
