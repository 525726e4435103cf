/** Phase 40.13.22 from the case definitions to the certificate: good answers are certified, and a
    certificate says of every definition that it passed. */
module StandardsTeam {
  import opened Options
  import opened Sorting
  import opened Sequences
  import opened ReportDirectory
  import opened StandardsPlan
  import opened StandardsRun
  import opened StandardsProtocol

  // ----- when a worker succeeds

  /** Both drivers gave the planned answer to this case on the catalog's descriptor. */
  ghost predicate CaseAgreed(job: Job, c: Case) {
    && c.caseId in job.catalog
    && var ngkg, oracle := job.responses.ngkg(c, job.catalog[c.caseId]), job.responses.oracle(c, job.catalog[c.caseId]);
       exists row :: Agreed(job.suite, job.maxBytes, c, ngkg, oracle, row)
  }

  lemma {:induction false} RunnerExactly(job: Job, c: Case)
    ensures CaseRunner(job)(c).Some? <==> CaseAgreed(job, c)
  {
    if c.caseId in job.catalog {
      var x := job.catalog[c.caseId];
      var answer := RunCase(job.suite, job.maxBytes, job.responses, c, x);
      if answer.Some? {
        RunCaseExactly(job.suite, job.maxBytes, job.responses, c, x, answer.value);
      }
      if row :| Agreed(job.suite, job.maxBytes, c, job.responses.ngkg(c, x), job.responses.oracle(c, x), row) {
        RunCaseExactly(job.suite, job.maxBytes, job.responses, c, x, row);
      }
    }
  }

  lemma {:induction false} CasesRun(job: Job, cases: seq<Case>, partition: int)
    ensures RunCases(job, Assigned(cases, partition)).Some?
      <==> forall c :: c in cases && c.partition == partition ==> CaseAgreed(job, c)
  {
    var cs := Assigned(cases, partition);
    forall c | c in cs ensures CaseRunner(job)(c).Some? <==> CaseAgreed(job, c) {
      RunnerExactly(job, c);
    }
    AllRun(CaseRunner(job), cs);
  }

  lemma {:induction false} AllRun(run: Case -> Option<Row>, cs: seq<Case>)
    ensures Traverse(run, cs).Some? <==> forall c :: c in cs ==> run(c).Some?
  {
    if Traverse(run, cs).Some? {
      forall c | c in cs ensures run(c).Some? {
        var i :| 0 <= i < |cs| && cs[i] == c;
      }
    } else {
      var i :| 0 <= i < |cs| && run(cs[i]).None?;
      assert cs[i] in cs;
    }
  }

  /** A worker reports exactly when its settings are in range, its plan and suite check, and both drivers
      gave the planned answer to every planned case of its partition. */
  lemma {:induction false} WorkerSucceedsIff(d: Digests, job: Job)
    ensures JobAccepted(d, job) <==>
      && job.jobs >= 1 && 1 <= job.timeoutSeconds <= 86400 && 1024 <= job.maxBytes <= 67108864
      && d.suite(job.suite) == job.plan.suiteInventorySha256 && PlanValid(d, job.plan, job.catalog)
      && 0 <= job.partition < job.plan.partitionCount
      && forall c :: c in job.plan.cases && c.partition == job.partition ==> CaseAgreed(job, c)
  {
    CasesRun(job, job.plan.cases, job.partition);
  }

  // ----- good answers are certified

  /** A worker for partition `p` of the built plan, with the planner's catalog and its own name, whose
      drivers give every planned answer. */
  ghost predicate GoodJob(d: Digests, suite: Suite, xs: seq<Definition>, count: int, p: int, job: Job)
    requires count >= 1 && DefinitionsValid(xs)
  {
    && job.plan == PlanOf(d, suite, xs, count).plan && job.catalog == PlanOf(d, suite, xs, count).catalog
    && job.suite == suite && job.partition == p && OptionsValid(job) && job.workerId != ""
    && forall c :: c in job.plan.cases && c.partition == p ==> CaseAgreed(job, c)
  }

  lemma {:induction false} GoodJobAccepted(d: Digests, suite: Suite, xs: seq<Definition>, count: int, p: int, job: Job)
    requires 1 <= count <= 65536 && DefinitionsValid(xs) && 0 <= p < count
    requires forall i :: 0 <= i < |xs| ==> xs[i].caseId != ""
    requires GoodJob(d, suite, xs, count, p, job)
    ensures JobAccepted(d, job)
  {
    BuiltPlanAcceptedIffNoEmptyId(d, suite, xs, count);
    WorkerSucceedsIff(d, job);
  }

  /** One such worker for each partition, in any order and under different names. */
  ghost predicate GoodTeam(d: Digests, suite: Suite, xs: seq<Definition>, count: int, jobs: seq<Job>)
    requires count >= 1 && DefinitionsValid(xs)
  {
    && |jobs| == count
    && (forall p :: 0 <= p < count ==> 0 <= jobs[p].partition < count)
    && (forall p :: 0 <= p < count ==> GoodJob(d, suite, xs, count, jobs[p].partition, jobs[p]))
    && forall p, q :: 0 <= p < q < count ==>
         jobs[p].partition != jobs[q].partition && jobs[p].workerId != jobs[q].workerId
  }

  /** If every driver gives the planned answers, one worker for each partition of a built plan leads to a
      certificate, in whatever order the reports are listed. */
  lemma {:induction false} GoodAnswersAreCertified(
      d: Digests, suite: Suite, xs: seq<Definition>, count: int, jobs: seq<Job>)
    returns (reports: seq<Report>)
    requires 1 <= count <= 65536 && DefinitionsValid(xs) && forall i :: 0 <= i < |xs| ==> xs[i].caseId != ""
    requires GoodTeam(d, suite, xs, count, jobs)
    ensures |reports| == count && forall p :: 0 <= p < count ==> Worker(d)(jobs[p]) == Some(reports[p])
    ensures MergeAccepted(d, PlanOf(d, suite, xs, count).plan, reports)
  {
    forall p | 0 <= p < count ensures JobAccepted(d, jobs[p]) {
      GoodJobAccepted(d, suite, xs, count, jobs[p].partition, jobs[p]);
    }
    reports := Traverse(Worker(d), jobs).value;
    TeamCertified(d, PlanOf(d, suite, xs, count).plan, jobs, reports);
  }

  lemma {:induction false} TeamCertified(d: Digests, plan: Plan, jobs: seq<Job>, reports: seq<Report>)
    requires jobs != [] && Traverse(Worker(d), jobs) == Some(reports) && |jobs| == plan.partitionCount
    requires forall p :: 0 <= p < |jobs| ==> jobs[p].plan == plan && jobs[p].workerId != ""
    requires forall p, q :: 0 <= p < q < |jobs| ==>
      jobs[p].partition != jobs[q].partition && jobs[p].workerId != jobs[q].workerId
    ensures MergeAccepted(d, plan, reports)
  {
    forall p | 0 <= p < |jobs| ensures JobAccepted(d, jobs[p]) && reports[p] == ReportOf(d, jobs[p]) {
      assert Worker(d)(jobs[p]) == Some(reports[p]);
    }
    TeamIsFull(jobs, reports);
    WorkerReportsAcceptedIffFullTeam(d, plan, jobs, reports);
  }

  lemma {:induction false} TeamIsFull(jobs: seq<Job>, reports: seq<Report>)
    requires |reports| == |jobs|
    requires forall p :: 0 <= p < |jobs| ==>
      reports[p].partition == jobs[p].partition && reports[p].workerId == jobs[p].workerId != ""
    requires forall p, q :: 0 <= p < q < |jobs| ==>
      jobs[p].partition != jobs[q].partition && jobs[p].workerId != jobs[q].workerId
    ensures FullTeam(reports, |jobs|)
  {
    assert Distinct(Map(PartitionOf, reports));
    assert Distinct(Map(WorkerOf, reports));
  }

  // ----- a certificate, definition by definition

  /** The row says that both engines ended as the definition asks. */
  predicate AsDefined(x: Definition, row: Row)
    requires x.Definition?
  {
    && row.caseId == x.caseId && row.family == x.family
    && row.ngkgOutcome == row.oracleOutcome == x.expectedOutcome
    && row.ngkgResultSha256 == row.oracleResultSha256 && row.ngkgErrorClass == row.oracleErrorClass
    && (x.expectedOutcome == "success" ==>
          row.ngkgResultSha256.Some?
          && (x.expectedResultSha256.Some? ==> row.ngkgResultSha256 == x.expectedResultSha256))
    && (x.expectedOutcome == "failure" ==> row.ngkgErrorClass == x.expectedErrorClass)
  }

  /** Every definition has one planned case, and it says what the definition says. */
  lemma {:induction false} DefinitionPlanned(d: Digests, suite: Suite, xs: seq<Definition>, count: int, i: nat)
    returns (c: Case)
    requires 1 <= count <= 65536 && DefinitionsValid(xs) && i < |xs|
    ensures c in PlanOf(d, suite, xs, count).plan.cases
    ensures c.caseId == xs[i].caseId && c.family == xs[i].family && c.oracle == xs[i].oracle
    ensures c.expectedOutcome == xs[i].expectedOutcome && c.expectedResultSha256 == xs[i].expectedResultSha256
    ensures c.expectedErrorClass == xs[i].expectedErrorClass && c.inputSha256 == d.descriptor(xs[i].descriptor)
    ensures c.partition == d.bucket(xs[i].caseId + "\0" + d.descriptor(xs[i].descriptor)) % count
  {
    var cs := CasesOf(d, count, xs);
    SameMembers(SortCases(cs), cs);
    c := cs[i];
    assert c in cs;
  }

  /** After any history, a certificate over a built plan means of each definition: in one merged report, and
      only there, stands a row that says it ended as defined; a worker that accepted the plan wrote it, and
      had run both engines on a descriptor with the digest of the definition's own. */
  lemma {:induction false} EveryDefinitionPassed(
      d: Digests, suite: Suite, xs: seq<Definition>, count: int, events: seq<Event<Job>>, i: nat)
    returns (e: nat, k: nat, j: nat)
    requires 1 <= count <= 65536 && DefinitionsValid(xs) && i < |xs|
    requires Issued(d, PlanOf(d, suite, xs, count).plan, events)
    requires PlanDigestUnique(d, PlanOf(d, suite, xs, count).plan, events)
    ensures Observes(SortReports(Merged(d, events)), k, j, xs[i].caseId)
    ensures AsDefined(xs[i], SortReports(Merged(d, events))[k].observations[j])
    ensures e < |events| && events[e].WorkerRan? && JobAccepted(d, events[e].job) && events[e].job.partition == k
    ensures xs[i].caseId in events[e].job.catalog
    ensures d.descriptor(events[e].job.catalog[xs[i].caseId]) == d.descriptor(xs[i].descriptor)
    ensures forall m, n :: Observes(SortReports(Merged(d, events)), m, n, xs[i].caseId) ==> m == k && n == j
  {
    var c := DefinitionPlanned(d, suite, xs, count, i);
    e, k, j := CertificateMeansEveryCasePassed(d, PlanOf(d, suite, xs, count).plan, events, c);
  }

  // ----- what the certificate counts

  function FamiliesOf(xs: seq<Definition>): (fs: seq<string>)
    requires forall i :: 0 <= i < |xs| ==> xs[i].Definition?
    ensures |fs| == |xs| && forall i :: 0 <= i < |xs| ==> fs[i] == xs[i].family
  {
    seq(|xs|, i requires 0 <= i < |xs| => xs[i].family)
  }

  lemma {:induction false} InitIncreasing(cs: seq<Case>)
    requires IdsIncreasing(cs) && cs != []
    ensures IdsIncreasing(cs[..|cs|-1])
  {
    var init := cs[..|cs|-1];
    assert forall i :: 0 <= i < |init| ==> init[i] == cs[i];
  }

  lemma {:induction false} FamilyCountStep(cs: seq<Case>, family: string)
    requires IdsIncreasing(cs) && cs != []
    ensures FamilyCount(Expected(cs), family)
      == FamilyCount(Expected(cs[..|cs|-1]), family) + if cs[|cs|-1].family == family then 1 else 0
  {
    LastIdIsNew(cs);
    CountOneMore(Expected(cs[..|cs|-1]), cs[|cs|-1], family);
  }

  lemma {:induction false} NoFamily(family: string)
    ensures FamilyCount(Expected([]), family) == multiset(Map(FamilyOf, []))[family]
  {
    assert FamilyCount(map[], family) == 0;
  }

  lemma {:induction false} FamilyStep(cs: seq<Case>, family: string)
    requires IdsIncreasing(cs) && cs != []
    requires FamilyCount(Expected(cs[..|cs|-1]), family) == multiset(Map(FamilyOf, cs[..|cs|-1]))[family]
    ensures FamilyCount(Expected(cs), family) == multiset(Map(FamilyOf, cs))[family]
  {
    FamilyCountStep(cs, family);
    BagOneMore(cs, family);
  }

  lemma {:induction false} FamilyCounted(cs: seq<Case>, family: string)
    requires IdsIncreasing(cs)
    ensures FamilyCount(Expected(cs), family) == multiset(Map(FamilyOf, cs))[family]
  {
    if cs == [] {
      NoFamily(family);
    } else {
      InitIncreasing(cs);
      FamilyCounted(cs[..|cs|-1], family);
      FamilyStep(cs, family);
    }
  }

  lemma {:induction false} BagOneMore(cs: seq<Case>, family: string)
    requires cs != []
    ensures multiset(Map(FamilyOf, cs))[family]
      == multiset(Map(FamilyOf, cs[..|cs|-1]))[family] + if cs[|cs|-1].family == family then 1 else 0
  {
    var families := Map(FamilyOf, cs[..|cs|-1]);
    assert cs == cs[..|cs|-1] + [cs[|cs|-1]];
    MapSnoc(FamilyOf, cs[..|cs|-1], cs[|cs|-1]);
    assert multiset(families + [cs[|cs|-1].family]) == multiset(families) + multiset{cs[|cs|-1].family};
  }

  lemma {:induction false} CountOneMore(expected: map<string, Case>, c: Case, family: string)
    requires c.caseId !in expected
    ensures FamilyCount(expected[c.caseId := c], family)
      == FamilyCount(expected, family) + if c.family == family then 1 else 0
  {
    var now := expected[c.caseId := c];
    var before := set id | id in expected && expected[id].family == family;
    var after := set id | id in now && now[id].family == family;
    assert after == if c.family == family then before + {c.caseId} else before;
  }

  /** The certificate of a built plan lists exactly the defined families, each with the number of its definitions. */
  lemma {:induction false} CertificateCountsFamilies(
      d: Digests, suite: Suite, xs: seq<Definition>, count: int, family: string)
    requires 1 <= count <= 65536 && DefinitionsValid(xs)
    ensures var counts := CertificateOf(d, PlanOf(d, suite, xs, count).plan).casesByFamily;
      && (family in counts <==> family in FamiliesOf(xs))
      && (family in counts ==> counts[family] == multiset(FamiliesOf(xs))[family])
  {
    var plan := PlanOf(d, suite, xs, count).plan;
    var cs := CasesOf(d, count, xs);
    SortedIdsIncrease(d, count, xs);
    CertifiedFamilies(d, plan);
    FamilyCounted(plan.cases, family);
    MapPermutation(FamilyOf, plan.cases, cs);
    assert Map(FamilyOf, cs) == FamiliesOf(xs);
    SameMembers(Map(FamilyOf, plan.cases), Map(FamilyOf, cs));
  }
}
