/** The W3C executor's record and tally loops: classification in inventory order, then
    execution of the pending tasks, with one shared counter. */
module ConformanceTally {
  import opened Options
  import opened Sorting
  import opened Sequences
  import opened Loops

  const OWL_DIRECT := "http://www.w3.org/ns/entailment/OWL-Direct"
  /** A recorded status: the ones the executor itself writes or looks for, and any other text. */
  datatype Status = Unsupported | Inventory | Pending | Fail | Pass | Other(text: string)

  const RDFT := "http://www.w3.org/ns/rdftest#"
  const MF := "http://www.w3.org/2001/sw/DataAccess/tests/test-manifest#"

  /** The manifest types the executor can run, with the kind each stands for. */
  const SUPPORTED: map<string, string> := map[
    RDFT + "TestTrigPositiveSyntax" := "trig-syntax",
    RDFT + "TestTrigNegativeSyntax" := "trig-syntax",
    RDFT + "TestTrigEval" := "trig-evaluation",
    MF + "PositiveSyntaxTest11" := "sparql-syntax",
    MF + "NegativeSyntaxTest11" := "sparql-syntax",
    MF + "QueryEvaluationTest" := "query-evaluation",
    MF + "CSVResultFormatTest" := "csv-result-format"]

  /** The kind of the first supported type. */
  function FirstKind(types: seq<string>): Option<string> {
    if types == [] then None
    else if types[0] in SUPPORTED then Some(SUPPORTED[types[0]]) else FirstKind(types[1..])
  }

  /** One loaded test: its sorted types, its entailment regimes, and whether its case could be prepared
      or raised. */
  datatype Test = Test(id: string, types: seq<string>, regimes: seq<string>, prepared: bool)

  datatype Settings = Settings(entailmentDriver: bool, inventoryOnly: bool, failOnUnsupported: bool, maxBytes: nat)

  datatype Record = Record(index: nat, id: string, status: Status)

  /** The status a test is recorded with before anything is executed. */
  function Classify(s: Settings, t: Test): Status {
    if FirstKind(t.types).None? then Unsupported
    else if t.regimes != [] && OWL_DIRECT !in t.regimes then Unsupported
    else if t.regimes != [] && !s.entailmentDriver then Unsupported
    else if s.inventoryOnly then Inventory
    else if t.prepared then Pending
    else Fail
  }

  type Classifier = Test -> Status

  function ClassifierOf(s: Settings): Classifier {
    (t: Test) => Classify(s, t)
  }

  /** What a test adds to the counts by type and by kind. */
  function TypesOf(t: Test): seq<string> { t.types }

  function KindsOf(s: Settings): Test -> seq<string> {
    (t: Test) =>
      if Classify(s, t) == Unsupported || FirstKind(t.types).None? then []
      else if t.regimes != [] then ["owl-direct-query-evaluation"] else [FirstKind(t.types).value]
  }

  // ----- one driver run

  /** The last line of standard output: none, no JSON, a JSON value that is no object, or an object with
      or without a status. */
  datatype Printed = Nothing | NotJson | NotAnObject | Object(status: Option<Status>)

  datatype CaseRun = TimedOut | Finished(stdoutBytes: nat, stderrBytes: nat, returnCode: int, lastLine: Printed)

  /** `run_case`: the recorded status, or none where the executor itself raises. */
  function RunCase(maxBytes: nat, run: CaseRun): Option<Status> {
    match run
    case TimedOut => Some(Fail)
    case Finished(stdoutBytes, stderrBytes, _, lastLine) =>
      if stdoutBytes > maxBytes || stderrBytes > maxBytes then Some(Fail)
      else match lastLine
           case NotAnObject => None
           case Object(Some(status)) => Some(status)
           case _ => Some(Fail)
  }

  /** What the driver run of each test yields. */
  type Driver = nat -> Option<Status>

  function Results(s: Settings, runs: nat -> CaseRun): Driver {
    (i: nat) => RunCase(s.maxBytes, runs(i))
  }

  function StatusOf(r: Record): Status { r.status }

  predicate IndexLe(a: Record, b: Record) { a.index <= b.index }

  function FinalStatus(classify: Classifier, tests: seq<Test>, driver: Driver, i: nat): Status
    requires i < |tests|
  {
    var status := classify(tests[i]);
    if status == Pending && driver(i).Some? then driver(i).value else status
  }

  datatype Summary = Summary(
    records: seq<Record>, counts: multiset<Status>, byType: multiset<string>, byKind: multiset<string>)

  /** One record per loaded test, at its own index, with its final status; the counter is the bag
      of those statuses, so it adds up to the inventory. */
  ghost predicate Conserved(classify: Classifier, tests: seq<Test>, driver: Driver, summary: Summary) {
    && |summary.records| == |tests|
    && (forall i :: 0 <= i < |tests| ==>
          summary.records[i] == Record(i, tests[i].id, FinalStatus(classify, tests, driver, i)))
    && summary.counts == multiset(Map(StatusOf, summary.records))
    && |summary.counts| == |tests|
  }

  /** The counter lacks exactly the `pending` records still to be executed. */
  ghost predicate Balanced(records: seq<Record>, counts: multiset<Status>, pending: nat) {
    forall x :: Tally(records, x) == counts[x] + if x == Pending then pending else 0
  }

  /** How many records have status `x`. */
  function Tally(records: seq<Record>, x: Status): nat {
    if records == [] then 0
    else Tally(records[..|records|-1], x) + if records[|records|-1].status == x then 1 else 0
  }

  lemma {:induction false} TallyIsBag(records: seq<Record>, x: Status)
    ensures Tally(records, x) == multiset(Map(StatusOf, records))[x]
    decreases |records|
  {
    if records != [] {
      var init, r := records[..|records|-1], records[|records|-1];
      TallyIsBag(init, x);
      MapWithout(StatusOf, records, |init|);
      assert Without(records, |init|) == init;
      BagWithout(Map(StatusOf, records), |init|);
    }
  }

  lemma {:induction false} TallyUpdate(records: seq<Record>, i: nat, r: Record, x: Status)
    requires i < |records|
    ensures Tally(records[i := r], x)
      == Tally(records, x) - (if records[i].status == x then 1 else 0) + (if r.status == x then 1 else 0)
    decreases |records|
  {
    var init, last := records[..|records|-1], records[|records|-1];
    var now := records[i := r];
    if i < |init| {
      TallyUpdate(init, i, r, x);
      assert now[..|now|-1] == init[i := r];
    } else {
      assert now[..|now|-1] == init;
    }
  }

  lemma {:induction false} BalancedSnoc(records: seq<Record>, counts: multiset<Status>, pending: nat, r: Record)
    requires Balanced(records, counts, pending)
    ensures r.status == Pending ==> Balanced(records + [r], counts, pending + 1)
    ensures r.status != Pending ==> Balanced(records + [r], counts + multiset{r.status}, pending)
  {
    var more := records + [r];
    assert more[..|more|-1] == records;
  }

  lemma {:induction false} BalancedUpdate(
      records: seq<Record>, counts: multiset<Status>, pending: nat, i: nat, status: Status)
    requires Balanced(records, counts, pending) && pending > 0 && i < |records| && records[i].status == Pending
    ensures Balanced(records[i := records[i].(status := status)], counts + multiset{status}, pending - 1)
  {
    forall x ensures Tally(records[i := records[i].(status := status)], x)
                     == (counts + multiset{status})[x] + if x == Pending then pending - 1 else 0 {
      TallyUpdate(records, i, records[i].(status := status), x);
    }
  }

  /** The pending indices, in order. */
  ghost predicate TasksOf(records: seq<Record>, tasks: seq<nat>) {
    && (forall k :: 0 <= k < |tasks| ==> tasks[k] < |records| && records[tasks[k]].status == Pending)
    && (forall k, l :: 0 <= k < l < |tasks| ==> tasks[k] < tasks[l])
    && (forall i :: 0 <= i < |records| && records[i].status == Pending ==> i in tasks)
  }

  lemma {:induction false} TasksSnoc(records: seq<Record>, tasks: seq<nat>, r: Record)
    requires TasksOf(records, tasks)
    ensures TasksOf(records + [r], if r.status == Pending then tasks + [|records|] else tasks)
  {
    var more := if r.status == Pending then tasks + [|records|] else tasks;
    forall i | 0 <= i < |records + [r]| && (records + [r])[i].status == Pending ensures i in more {
      if i == |records| { assert more[|tasks|] == i; } else { assert i in tasks; }
    }
  }

  ghost predicate Classified(classify: Classifier, tests: seq<Test>, records: seq<Record>) {
    && |records| == |tests|
    && forall i :: 0 <= i < |tests| ==> records[i] == Record(i, tests[i].id, classify(tests[i]))
  }

  lemma {:induction false} ClassifiedSnoc(classify: Classifier, tests: seq<Test>, records: seq<Record>, i: nat)
    requires i < |tests| && Classified(classify, tests[..i], records)
    ensures Classified(classify, tests[..i+1], records + [Record(i, tests[i].id, classify(tests[i]))])
  {
    var a, b := tests[..i], tests[..i+1];
    assert forall j :: 0 <= j < i ==> b[j] == a[j];
  }

  /** First loop: every test is appended once, counted unless it is left pending as a task. */
  method ClassifyAll(classify: Classifier, kindsOf: Test -> seq<string>, tests: seq<Test>)
    returns (
      records: seq<Record>, counts: multiset<Status>, tasks: seq<nat>,
      byType: multiset<string>, byKind: multiset<string>)
    ensures Classified(classify, tests, records) && TasksOf(records, tasks) && Balanced(records, counts, |tasks|)
    ensures byType == multiset(Flat(TypesOf, tests)) && byKind == multiset(Flat(kindsOf, tests))
  {
    records, counts, tasks, byType, byKind := [], multiset{}, [], multiset{}, multiset{};
    for i := 0 to |tests|
      invariant Classified(classify, tests[..i], records)
      invariant TasksOf(records, tasks)
      invariant Balanced(records, counts, |tasks|)
      invariant byType == multiset(Flat(TypesOf, tests[..i])) && byKind == multiset(Flat(kindsOf, tests[..i]))
    {
      var record := Record(i, tests[i].id, classify(tests[i]));
      ClassifiedSnoc(classify, tests, records, i);
      BalancedSnoc(records, counts, |tasks|, record);
      TasksSnoc(records, tasks, record);
      FlatStep(TypesOf, tests, i);
      FlatStep(kindsOf, tests, i);
      byType, byKind := byType + multiset(tests[i].types), byKind + multiset(kindsOf(tests[i]));
      records := records + [record];
      if record.status == Pending {
        tasks := tasks + [i];
      } else {
        counts := counts + multiset{record.status};
      }
    }
    assert tests[..|tests|] == tests;
  }

  /** Second loop: each pending record is updated with its own outcome, and counted. */
  method ExecuteAll(records: seq<Record>, counts: multiset<Status>, tasks: seq<nat>, driver: Driver)
    returns (r: Option<(seq<Record>, multiset<Status>)>)
    requires TasksOf(records, tasks) && Balanced(records, counts, |tasks|)
    ensures r.None? <==> exists k :: 0 <= k < |tasks| && driver(tasks[k]).None?
    ensures r.Some? ==> Executed(records, tasks, driver, r.value.0) && Balanced(r.value.0, r.value.1, 0)
  {
    var now, tally := records, counts;
    for k := 0 to |tasks|
      invariant forall l :: 0 <= l < k ==> driver(tasks[l]).Some?
      invariant Executed(records, tasks[..k], driver, now)
      invariant Balanced(now, tally, |tasks| - k)
    {
      var i := tasks[k];
      if driver(i).None? { return None; }
      ExecutedSnoc(records, tasks, driver, now, k);
      BalancedUpdate(now, tally, |tasks| - k, i, driver(i).value);
      now := now[i := now[i].(status := driver(i).value)];
      tally := tally + multiset{driver(i).value};
    }
    assert tasks[..|tasks|] == tasks;
    return Some((now, tally));
  }

  ghost predicate Executed(records: seq<Record>, tasks: seq<nat>, driver: Driver, now: seq<Record>) {
    && |now| == |records|
    && (forall k :: 0 <= k < |tasks| ==> driver(tasks[k]).Some?)
    && forall i :: 0 <= i < |records| ==>
         now[i] == if i in tasks then records[i].(status := driver(i).value) else records[i]
  }

  lemma {:induction false} ExecutedSnoc(records: seq<Record>, tasks: seq<nat>, driver: Driver, now: seq<Record>, k: nat)
    requires TasksOf(records, tasks) && k < |tasks| && Executed(records, tasks[..k], driver, now)
    requires driver(tasks[k]).Some?
    ensures now[tasks[k]].status == Pending
    ensures Executed(records, tasks[..k+1], driver, now[tasks[k] := now[tasks[k]].(status := driver(tasks[k]).value)])
  {
    var i := tasks[k];
    assert tasks[..k+1] == tasks[..k] + [i];
    assert i !in tasks[..k];
  }

  function SortRecords(records: seq<Record>): seq<Record> {
    SortBy(records, IndexLe)
  }

  lemma {:induction false} AlreadySorted(records: seq<Record>)
    requires forall i :: 0 <= i < |records| ==> records[i].index == i
    ensures SortRecords(records) == records
  {
    SortedStays(records, IndexLe);
  }

  /** Classification, execution and the final sort by index. */
  method RunSuite(s: Settings, tests: seq<Test>, runs: nat -> CaseRun) returns (r: Option<Summary>)
    ensures r.None? <==>
      exists i :: 0 <= i < |tests| && ClassifierOf(s)(tests[i]) == Pending && Results(s, runs)(i).None?
    ensures r.Some? ==> Conserved(ClassifierOf(s), tests, Results(s, runs), r.value)
    ensures r.Some? ==>
      r.value.byType == multiset(Flat(TypesOf, tests)) && r.value.byKind == multiset(Flat(KindsOf(s), tests))
  {
    var driver, classify := Results(s, runs), ClassifierOf(s);
    var records, counts, tasks, byType, byKind := ClassifyAll(classify, KindsOf(s), tests);
    var done := ExecuteAll(records, counts, tasks, driver);
    if done.None? {
      ghost var k :| 0 <= k < |tasks| && driver(tasks[k]).None?;
      assert classify(tests[tasks[k]]) == Pending;
      return None;
    }
    FinalStatuses(classify, tests, driver, records, tasks, done.value.0, done.value.1);
    AlreadySorted(done.value.0);
    return Some(Summary(SortRecords(done.value.0), done.value.1, byType, byKind));
  }

  lemma {:induction false} FinalStatuses(
    classify: Classifier, tests: seq<Test>, driver: Driver, records: seq<Record>, tasks: seq<nat>, now: seq<Record>,
    counts: multiset<Status>)
    requires Classified(classify, tests, records) && TasksOf(records, tasks)
    requires Executed(records, tasks, driver, now) && Balanced(now, counts, 0)
    ensures |now| == |tests| == |counts| && counts == multiset(Map(StatusOf, now))
    ensures forall i :: 0 <= i < |tests| ==> now[i] == Record(i, tests[i].id, FinalStatus(classify, tests, driver, i))
    ensures forall i :: 0 <= i < |tests| && classify(tests[i]) == Pending ==> driver(i).Some?
  {
    FinalRecords(classify, tests, driver, records, tasks, now);
    BalancedIsBag(now, counts);
  }

  lemma {:induction false} FinalRecords(
    classify: Classifier, tests: seq<Test>, driver: Driver, records: seq<Record>, tasks: seq<nat>, now: seq<Record>)
    requires Classified(classify, tests, records) && TasksOf(records, tasks) && Executed(records, tasks, driver, now)
    ensures |now| == |tests|
    ensures forall i :: 0 <= i < |tests| ==> now[i] == Record(i, tests[i].id, FinalStatus(classify, tests, driver, i))
    ensures forall i :: 0 <= i < |tests| && classify(tests[i]) == Pending ==> driver(i).Some?
  {
    forall i | 0 <= i < |tests|
      ensures now[i] == Record(i, tests[i].id, FinalStatus(classify, tests, driver, i))
      ensures classify(tests[i]) == Pending ==> driver(i).Some?
    {
      if i in tasks {
        var k :| 0 <= k < |tasks| && tasks[k] == i;
      }
    }
  }

  lemma {:induction false} BalancedIsBag(records: seq<Record>, counts: multiset<Status>)
    requires Balanced(records, counts, 0)
    ensures counts == multiset(Map(StatusOf, records)) && |counts| == |records|
  {
    var bag := multiset(Map(StatusOf, records));
    forall x ensures counts[x] == bag[x] {
      TallyIsBag(records, x);
    }
    assert counts == bag;
    assert |bag| == |Map(StatusOf, records)|;
  }

  // ----- what the summary means

  /** A record says `pass` exactly when its test was runnable and prepared, and its driver finished in
      time within the output ceiling and printed an object with that status last. The exit code of the
      driver is not read. */
  lemma {:induction false} PassExactly(s: Settings, tests: seq<Test>, runs: nat -> CaseRun, summary: Summary, i: nat)
    requires Conserved(ClassifierOf(s), tests, Results(s, runs), summary) && i < |tests|
    ensures summary.records[i].status == Pass <==>
      && ClassifierOf(s)(tests[i]) == Pending && runs(i).Finished?
      && runs(i).stdoutBytes <= s.maxBytes && runs(i).stderrBytes <= s.maxBytes
      && runs(i).lastLine == Object(Some(Pass))
  {
    NothingPassesUnrun(s, tests[i]);
    PassedRun(s.maxBytes, runs(i));
    FinalPass(ClassifierOf(s), tests, Results(s, runs), summary, i);
    assert Results(s, runs)(i) == RunCase(s.maxBytes, runs(i));
  }

  lemma {:induction false} FinalPass(classify: Classifier, tests: seq<Test>, driver: Driver, summary: Summary, i: nat)
    requires Conserved(classify, tests, driver, summary) && i < |tests| && classify(tests[i]) != Pass
    ensures summary.records[i].status == Pass <==> classify(tests[i]) == Pending && driver(i) == Some(Pass)
  {
  }

  lemma {:induction false} PassedRun(maxBytes: nat, run: CaseRun)
    ensures RunCase(maxBytes, run) == Some(Pass) <==>
      run.Finished? && run.stdoutBytes <= maxBytes && run.stderrBytes <= maxBytes && run.lastLine == Object(Some(Pass))
  {
  }

  /** No test is classified as passed. */
  lemma {:induction false} NothingPassesUnrun(s: Settings, t: Test)
    ensures ClassifierOf(s)(t) != Pass
  {
  }

  /** Every test that is not classified as unsupported counts under exactly one kind. */
  lemma {:induction false} KindsCountRunnable(s: Settings, tests: seq<Test>)
    ensures |Flat(KindsOf(s), tests)| == Runnable(s, tests)
    decreases |tests|
  {
    if tests != [] {
      KindsCountRunnable(s, tests[..|tests|-1]);
      assert Classify(s, tests[|tests|-1]) != Unsupported ==> FirstKind(tests[|tests|-1].types).Some?;
    }
  }

  function Runnable(s: Settings, tests: seq<Test>): nat {
    if tests == [] then 0
    else Runnable(s, tests[..|tests|-1]) + if Classify(s, tests[|tests|-1]) == Unsupported then 0 else 1
  }

  /** The exit status computed from the counter. */
  function ExitCode(s: Settings, counts: multiset<Status>): int {
    if counts[Fail] > 0 || (s.failOnUnsupported && counts[Unsupported] > 0) then 1
    else if !s.inventoryOnly && counts[Pass] == 0 then 1
    else 0
  }

  /** A zero exit means: no record of any test says `fail`, where it was asked for no test was unsupported,
      and in a run that executes the tests some test passed. */
  lemma {:induction false} CleanExitMeansNoFailure(
    s: Settings, classify: Classifier, tests: seq<Test>, driver: Driver, summary: Summary)
    requires Conserved(classify, tests, driver, summary)
    ensures ExitCode(s, summary.counts) == 0 || ExitCode(s, summary.counts) == 1
    ensures ExitCode(s, summary.counts) == 0 <==>
      && (forall i :: 0 <= i < |tests| ==> FinalStatus(classify, tests, driver, i) != Fail)
      && (!s.inventoryOnly ==> exists i :: 0 <= i < |tests| && FinalStatus(classify, tests, driver, i) == Pass)
      && (s.failOnUnsupported ==>
            forall i :: 0 <= i < |tests| ==> FinalStatus(classify, tests, driver, i) != Unsupported)
  {
    var statuses := Map(StatusOf, summary.records);
    forall i | 0 <= i < |tests| ensures statuses[i] == FinalStatus(classify, tests, driver, i) {
      assert statuses[i] == StatusOf(summary.records[i]);
    }
    StatusCounted(statuses, Fail);
    StatusCounted(statuses, Pass);
    StatusCounted(statuses, Unsupported);
  }

  lemma {:induction false} StatusCounted(statuses: seq<Status>, x: Status)
    ensures multiset(statuses)[x] == 0 <==> forall i :: 0 <= i < |statuses| ==> statuses[i] != x
  {
    if multiset(statuses)[x] > 0 {
      assert x in multiset(statuses);
      var i :| 0 <= i < |statuses| && statuses[i] == x;
    }
    forall i | 0 <= i < |statuses| && statuses[i] == x ensures multiset(statuses)[x] > 0 {
      assert statuses[i] in multiset(statuses);
    }
  }

  // ----- when a record says what

  /** The first type of the test that the executor can run. */
  ghost predicate FirstSupported(types: seq<string>, k: int) {
    0 <= k < |types| && types[k] in SUPPORTED && forall j :: 0 <= j < k ==> types[j] !in SUPPORTED
  }

  ghost predicate CanRun(t: Test) {
    exists k :: FirstSupported(t.types, k)
  }

  lemma {:induction false} FirstKindExactly(types: seq<string>)
    ensures FirstKind(types).Some? <==> exists k :: FirstSupported(types, k)
    ensures forall k :: FirstSupported(types, k) ==> FirstKind(types) == Some(SUPPORTED[types[k]])
  {
    if types != [] {
      var rest := types[1..];
      assert forall j :: 0 <= j < |rest| ==> rest[j] == types[j+1];
      FirstKindExactly(rest);
      if types[0] in SUPPORTED {
        assert FirstSupported(types, 0);
      } else {
        forall k | FirstSupported(types, k) ensures FirstSupported(rest, k - 1) {
        }
        forall k | FirstSupported(rest, k) ensures FirstSupported(types, k + 1) {
        }
      }
    }
  }

  /** The entailment regimes, if there are any, include OWL Direct and a driver for it is given. */
  predicate RegimesRun(s: Settings, t: Test) {
    t.regimes == [] || ("http://www.w3.org/ns/entailment/OWL-Direct" in t.regimes && s.entailmentDriver)
  }

  /** The test is left as a task. */
  ghost predicate IsTask(s: Settings, t: Test) {
    CanRun(t) && RegimesRun(s, t) && !s.inventoryOnly && t.prepared
  }

  /** The driver finished within both output limits. */
  predicate Readable(s: Settings, run: CaseRun) {
    run.Finished? && run.stdoutBytes <= s.maxBytes && run.stderrBytes <= s.maxBytes
  }

  /** The status of a test, from the test and its driver run alone. */
  ghost predicate StatusIs(s: Settings, t: Test, run: CaseRun, x: Status) {
    if !CanRun(t) || !RegimesRun(s, t) then x == Unsupported
    else if s.inventoryOnly then x == Inventory
    else if !t.prepared then x == Fail
    else if Readable(s, run) && run.lastLine.Object? && run.lastLine.status.Some? then x == run.lastLine.status.value
    else x == Fail
  }

  /** Every record of a finished suite has the status that its test and its run give it. */
  lemma {:induction false} StatusExactly(s: Settings, tests: seq<Test>, runs: nat -> CaseRun, summary: Summary, i: nat)
    requires Conserved(ClassifierOf(s), tests, Results(s, runs), summary) && i < |tests|
    requires ClassifierOf(s)(tests[i]) == Pending ==> Results(s, runs)(i).Some?
    ensures StatusIs(s, tests[i], runs(i), summary.records[i].status)
  {
    FirstKindExactly(tests[i].types);
    assert summary.records[i].status == FinalStatus(ClassifierOf(s), tests, Results(s, runs), i);
    assert Results(s, runs)(i) == RunCase(s.maxBytes, runs(i));
  }

  /** The suite raises exactly if the driver of some task prints a JSON value that is no object. */
  lemma {:induction false} RaisesExactly(s: Settings, t: Test, run: CaseRun)
    ensures ClassifierOf(s)(t) == Pending && RunCase(s.maxBytes, run).None? <==>
      IsTask(s, t) && Readable(s, run) && run.lastLine.NotAnObject?
  {
    FirstKindExactly(t.types);
  }

  /** The kind a test counts under. */
  lemma {:induction false} KindExactly(s: Settings, t: Test, k: nat)
    requires FirstSupported(t.types, k)
    ensures KindsOf(s)(t) ==
      if !RegimesRun(s, t) then []
      else if t.regimes != [] then ["owl-direct-query-evaluation"]
      else [SUPPORTED[t.types[k]]]
  {
    FirstKindExactly(t.types);
  }
}
