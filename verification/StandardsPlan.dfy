/** Phase 40.13.22: the planner and the worker's plan check. */
module StandardsPlan {
  import opened HexSha
  import opened Options
  import opened Orders
  import opened Sorting
  import opened Partitions

  const SUCCESS := "success"
  const FAILURE := "failure"

  /** A definition with a missing required field, or a complete one; descriptors are canonical JSON. */
  datatype Definition =
    | Incomplete
    | Definition(caseId: string, family: string, oracle: string, expectedOutcome: string,
                 expectedResultSha256: Option<string>, expectedErrorClass: Option<string>, descriptor: string)

  datatype Case = Case(
    caseId: string, family: string, inputSha256: string, oracle: string, expectedOutcome: string,
    expectedResultSha256: Option<string>, expectedErrorClass: Option<string>, partition: int)

  datatype Plan = Plan(formatVersion: int, suiteInventorySha256: string, partitionCount: int, cases: seq<Case>)

  datatype Suite = Suite(ngkg: string, w3cExpected: string, apacheJena: string, hermit: string, rest: string)

  /** The digests of the canonical JSON of each document, and the first eight digest bytes of a
      case identity read as a big-endian number. */
  datatype Digests = Digests(
    descriptor: string -> Sha, suite: Suite -> Sha, plan: Plan -> Sha, bucket: string -> nat)

  // ----- the planner

  predicate DefinitionValid(x: Definition) {
    && x.Definition?
    && x.oracle in {"w3c-expected", "apache-jena", "hermit"}
    && x.expectedOutcome in {SUCCESS, FAILURE}
    && (x.expectedOutcome == SUCCESS ==> x.expectedErrorClass.None?)
    && (x.expectedOutcome == FAILURE ==> x.expectedErrorClass.Some? && x.expectedErrorClass.value != "")
  }

  predicate DefinitionsValid(xs: seq<Definition>) {
    && (forall i :: 0 <= i < |xs| ==> DefinitionValid(xs[i]))
    && (forall i, j :: 0 <= i < j < |xs| ==> xs[i].caseId != xs[j].caseId)
  }

  function CaseOf(d: Digests, count: int, x: Definition): Case
    requires count >= 1 && x.Definition?
  {
    var inputSha := d.descriptor(x.descriptor);
    Case(x.caseId, x.family, inputSha, x.oracle, x.expectedOutcome, x.expectedResultSha256, x.expectedErrorClass,
         StablePartition(d.bucket, x.caseId, inputSha, count))
  }

  function CasesOf(d: Digests, count: int, xs: seq<Definition>): (cs: seq<Case>)
    requires count >= 1 && forall i :: 0 <= i < |xs| ==> xs[i].Definition?
    ensures |cs| == |xs|
    ensures forall i :: 0 <= i < |xs| ==> cs[i] == CaseOf(d, count, xs[i])
  {
    seq(|xs|, i requires 0 <= i < |xs| => CaseOf(d, count, xs[i]))
  }

  predicate CaseLe(a: Case, b: Case) {
    Le(a.caseId, b.caseId)
  }

  lemma {:induction false} CaseOrder()
    ensures TotalPreorder(CaseLe)
  {
    LeIsTotalOrder();
  }

  function SortCases(cs: seq<Case>): (r: seq<Case>)
    ensures multiset(r) == multiset(cs) && SortedBy(r, CaseLe)
  {
    CaseOrder();
    SortBy(cs, CaseLe)
  }

  /** The descriptor catalog, filled definition by definition. */
  function CatalogOf(xs: seq<Definition>): map<string, string>
    requires forall i :: 0 <= i < |xs| ==> xs[i].Definition?
  {
    if xs == [] then map[] else
      var x := xs[|xs|-1];
      CatalogOf(xs[..|xs|-1])[x.caseId := x.descriptor]
  }

  datatype Built = Built(plan: Plan, catalog: map<string, string>)

  function PlanOf(d: Digests, suite: Suite, xs: seq<Definition>, count: int): Built
    requires count >= 1 && forall i :: 0 <= i < |xs| ==> xs[i].Definition?
  {
    Built(Plan(1, d.suite(suite), count, SortCases(CasesOf(d, count, xs))), CatalogOf(xs))
  }

  method BuildPlan(d: Digests, suite: Suite, xs: seq<Definition>, count: int) returns (built: Option<Built>)
    ensures built.Some? <==> 1 <= count <= 65536 && DefinitionsValid(xs)
    ensures built.Some? ==> built.value == PlanOf(d, suite, xs, count)
  {
    if !(1 <= count <= 65536) { return None; }
    var planCases: seq<Case>, catalog: map<string, string>, seen: set<string> := [], map[], {};
    for i := 0 to |xs|
      invariant DefinitionsValid(xs[..i])
      invariant planCases == CasesOf(d, count, xs[..i])
      invariant catalog == CatalogOf(xs[..i])
      invariant seen == set j | 0 <= j < i :: xs[j].caseId
    {
      var x := xs[i];
      if x.Incomplete? || x.caseId in seen { return None; }
      if !DefinitionValid(x) { return None; }
      PrefixStep(d, count, xs, i);
      seen := seen + {x.caseId};
      catalog := catalog[x.caseId := x.descriptor];
      planCases := planCases + [CaseOf(d, count, x)];
    }
    assert xs[..|xs|] == xs;
    return Some(Built(Plan(1, d.suite(suite), count, SortCases(planCases)), catalog));
  }

  lemma {:induction false} PrefixStep(d: Digests, count: int, xs: seq<Definition>, i: nat)
    requires count >= 1 && i < |xs| && DefinitionsValid(xs[..i]) && DefinitionValid(xs[i])
    requires forall j :: 0 <= j < i ==> xs[j].Definition? && xs[j].caseId != xs[i].caseId
    ensures DefinitionsValid(xs[..i+1])
    ensures CasesOf(d, count, xs[..i+1]) == CasesOf(d, count, xs[..i]) + [CaseOf(d, count, xs[i])]
    ensures CatalogOf(xs[..i+1]) == CatalogOf(xs[..i])[xs[i].caseId := xs[i].descriptor]
  {
    var s, t := xs[..i], xs[..i+1];
    assert t == s + [xs[i]] && t[..i] == s;
    assert forall j :: 0 <= j < i ==> t[j] == s[j] == xs[j];
  }

  // ----- the worker's check of the plan

  ghost predicate CaseValid(d: Digests, catalog: map<string, string>, count: int, c: Case)
    requires count >= 1
  {
    && c.caseId in catalog
    && d.descriptor(catalog[c.caseId]) == c.inputSha256
    && StablePartition(d.bucket, c.caseId, c.inputSha256, count) == c.partition
  }

  predicate IdsIncreasing(cs: seq<Case>) {
    forall i, j :: 0 <= i < j < |cs| ==> Lt(cs[i].caseId, cs[j].caseId)
  }

  ghost predicate PlanValid(d: Digests, plan: Plan, catalog: map<string, string>) {
    && plan.formatVersion == 1 && 1 <= plan.partitionCount <= 65536 && IsSha(plan.suiteInventorySha256)
    && IdsIncreasing(plan.cases)
    && (plan.cases != [] ==> plan.cases[0].caseId != "")
    && forall i :: 0 <= i < |plan.cases| ==> CaseValid(d, catalog, plan.partitionCount, plan.cases[i])
  }

  method ValidatePlan(d: Digests, plan: Plan, catalog: map<string, string>) returns (ok: bool)
    ensures ok <==> PlanValid(d, plan, catalog)
  {
    if plan.formatVersion != 1 || !(1 <= plan.partitionCount <= 65536) || !IsSha(plan.suiteInventorySha256) {
      return false;
    }
    var previous, cases := "", plan.cases;
    for i := 0 to |cases|
      invariant previous == if i == 0 then "" else cases[i-1].caseId
      invariant i > 0 ==> cases[0].caseId != ""
      invariant forall j :: 0 <= j < i ==> CaseValid(d, catalog, plan.partitionCount, cases[j])
      invariant IdsIncreasing(cases[..i])
    {
      var c := cases[i];
      if Le(c.caseId, previous) {
        NotAbove(cases, i, previous);
        return false;
      }
      if c.caseId !in catalog { return false; }
      if d.descriptor(catalog[c.caseId]) != c.inputSha256 { return false; }
      if StablePartition(d.bucket, c.caseId, c.inputSha256, plan.partitionCount) != c.partition { return false; }
      IncreasingSnoc(cases, i);
      previous := c.caseId;
    }
    assert cases[..|cases|] == cases;
    return true;
  }

  lemma {:induction false} NotAbove(cs: seq<Case>, i: nat, previous: string)
    requires i < |cs| && previous == (if i == 0 then "" else cs[i-1].caseId) && Le(cs[i].caseId, previous)
    ensures !(IdsIncreasing(cs) && cs[0].caseId != "")
  {
    if i > 0 && Lt(cs[i-1].caseId, cs[i].caseId) {
      LeAntisymmetric(cs[i-1].caseId, cs[i].caseId);
    }
  }

  lemma {:induction false} IncreasingSnoc(cs: seq<Case>, i: nat)
    requires i < |cs| && IdsIncreasing(cs[..i])
    requires i > 0 ==> !Le(cs[i].caseId, cs[i-1].caseId)
    ensures IdsIncreasing(cs[..i+1])
  {
    var s := cs[..i+1];
    forall j, k | 0 <= j < k < |s| ensures Lt(s[j].caseId, s[k].caseId) {
      if k < i {
        assert cs[..i][j] == s[j] && cs[..i][k] == s[k];
      } else {
        LeTotal(cs[i].caseId, cs[i-1].caseId);
        LeReflexive(cs[i].caseId);
        if j < i - 1 {
          assert cs[..i][j] == s[j] && cs[..i][i-1] == cs[i-1];
          LeTransitive(s[j].caseId, cs[i-1].caseId, cs[i].caseId);
        }
      }
    }
  }

  // ----- what the planner promises the workers

  lemma {:induction false} CatalogHolds(xs: seq<Definition>, i: nat)
    requires DefinitionsValid(xs) && i < |xs|
    ensures xs[i].caseId in CatalogOf(xs) && CatalogOf(xs)[xs[i].caseId] == xs[i].descriptor
    decreases |xs|
  {
    if i < |xs| - 1 {
      CatalogHolds(xs[..|xs|-1], i);
    }
  }

  /** Every planned case comes from one definition. */
  lemma {:induction false} CaseOrigin(d: Digests, count: int, xs: seq<Definition>, c: Case) returns (i: nat)
    requires count >= 1 && DefinitionsValid(xs) && c in SortCases(CasesOf(d, count, xs))
    ensures i < |xs| && c == CaseOf(d, count, xs[i])
  {
    var cs := CasesOf(d, count, xs);
    SameMembers(SortCases(cs), cs);
    i :| 0 <= i < |cs| && cs[i] == c;
  }

  lemma {:induction false} SortedIdsIncrease(d: Digests, count: int, xs: seq<Definition>)
    requires count >= 1 && DefinitionsValid(xs)
    ensures IdsIncreasing(SortCases(CasesOf(d, count, xs)))
  {
    var cs, r := CasesOf(d, count, xs), SortCases(CasesOf(d, count, xs));
    assert Distinct(cs);
    DistinctPermutation(cs, r);
    forall i, j | 0 <= i < j < |r| ensures Lt(r[i].caseId, r[j].caseId) {
      assert CaseLe(r[i], r[j]) && r[i] != r[j];
      var a := CaseOrigin(d, count, xs, r[i]);
      var b := CaseOrigin(d, count, xs, r[j]);
    }
  }

  /** The worker accepts a plan the planner emitted exactly when no case identifier is empty:
      the planner lets the empty one through, and the worker's first comparison rejects it. */
  lemma {:induction false} BuiltPlanAcceptedIffNoEmptyId(d: Digests, suite: Suite, xs: seq<Definition>, count: int)
    requires 1 <= count <= 65536 && DefinitionsValid(xs)
    ensures PlanValid(d, PlanOf(d, suite, xs, count).plan, PlanOf(d, suite, xs, count).catalog)
      <==> (forall i :: 0 <= i < |xs| ==> xs[i].caseId != "")
  {
    var built := PlanOf(d, suite, xs, count);
    var cs, r := CasesOf(d, count, xs), built.plan.cases;
    SortedIdsIncrease(d, count, xs);
    SameMembers(r, cs);
    forall k | 0 <= k < |r| ensures CaseValid(d, built.catalog, count, r[k]) {
      var i := CaseOrigin(d, count, xs, r[k]);
      CatalogHolds(xs, i);
    }
    if r != [] {
      FirstIdEmpty(r);
      var i := CaseOrigin(d, count, xs, r[0]);
      forall j | 0 <= j < |xs| && xs[j].caseId == "" ensures r[0].caseId == "" {
        assert cs[j] in r;
        var k :| 0 <= k < |r| && r[k] == cs[j];
      }
    }
  }

  lemma {:induction false} FirstIdEmpty(r: seq<Case>)
    requires IdsIncreasing(r) && r != []
    ensures forall k :: 0 <= k < |r| && r[k].caseId == "" ==> r[0].caseId == ""
  {
    forall k | 0 <= k < |r| && r[k].caseId == "" ensures r[0].caseId == "" {
      if k > 0 { assert Lt(r[0].caseId, r[k].caseId); }
    }
  }
}
