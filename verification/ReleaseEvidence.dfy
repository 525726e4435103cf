/** Phase 40.13.24: what the evidence root depends on, and what it determines. */
module ReleaseEvidence {
  import opened Orders
  import opened Sorting
  import opened Sequences
  import opened ReleasePlan
  import opened ReleaseRun
  import opened ReleaseProtocol

  // ----- the root is a function of the scenario-to-evidence map

  /** The identifiers the merger expects are those of the definitions. */
  lemma {:induction false} ExpectedIds(d: Digests, q: Request, xs: seq<Definition>)
    requires q.partitionCount > 0
    ensures Expected(PlanOf(d, q, xs).plan.scenarios).Keys == Members(Map(DefinitionId, xs))
  {
    var expected, ids := Expected(PlanOf(d, q, xs).plan.scenarios), Map(DefinitionId, xs);
    forall id | id in expected ensures id in ids {
      IdDefined(d, q, xs, id);
    }
    forall id | id in ids ensures id in expected {
      var i :| 0 <= i < |ids| && ids[i] == id;
      DefinitionPlanned(d, q, xs, i);
    }
  }

  lemma {:induction false} IdDefined(d: Digests, q: Request, xs: seq<Definition>, id: string)
    requires q.partitionCount > 0 && id in Expected(PlanOf(d, q, xs).plan.scenarios)
    ensures id in Map(DefinitionId, xs)
  {
    var i := ScenarioOrigin(d, q, xs, Expected(PlanOf(d, q, xs).plan.scenarios)[id]);
    assert Map(DefinitionId, xs)[i] == id;
  }

  /** Wherever both reports observe a scenario, they name the same evidence for it. */
  ghost predicate SameEvidence(a: seq<Row>, b: seq<Row>) {
    forall i, j :: 0 <= i < |a| && 0 <= j < |b| && RowId(a[i]) == RowId(b[j])
      ==> a[i].item.evidenceSha256 == b[j].item.evidenceSha256
  }

  lemma {:induction false} SameEvidenceMap(a: seq<Row>, b: seq<Row>)
    requires SameEvidence(a, b) && Members(Map(RowId, a)) == Members(Map(RowId, b))
    ensures EvidenceIn(Observed(a)) == EvidenceIn(Observed(b))
  {
    var x, y := Observed(a), Observed(b);
    assert x.Keys == y.Keys;
    forall id | id in x ensures x[id].evidenceSha256 == y[id].evidenceSha256 {
      SameEvidenceAt(a, b, id);
    }
    SameImages(x, y);
  }

  lemma {:induction false} SameEvidenceAt(a: seq<Row>, b: seq<Row>, id: string)
    requires SameEvidence(a, b) && id in Observed(a) && id in Observed(b)
    ensures Observed(a)[id].evidenceSha256 == Observed(b)[id].evidenceSha256
  {
    var i := ObservedRow(a, id);
    var j := ObservedRow(b, id);
    assert RowId(a[i]) == RowId(b[j]);
  }

  lemma {:induction false} SameImages(x: map<string, Observation>, y: map<string, Observation>)
    requires x.Keys == y.Keys && forall id :: id in x ==> x[id].evidenceSha256 == y[id].evidenceSha256
    ensures EvidenceIn(x) == EvidenceIn(y)
  {
    assert EvidenceIn(x).Keys == EvidenceIn(y).Keys;
  }

  /** Two certified runs over the same scenario identifiers that agree on the evidence of each
      scenario have the same root, however they were partitioned, staffed and filed. */
  lemma {:induction false} RootDependsOnlyOnEvidence(
    d: Digests, q: Request, xs: seq<Definition>, a: seq<Report>, q': Request, xs': seq<Definition>, b: seq<Report>)
    requires Plannable(q, xs) && Plannable(q', xs') && Members(Map(DefinitionId, xs)) == Members(Map(DefinitionId, xs'))
    requires MergeAccepted(d, PlanOf(d, q, xs).plan, a) && MergeAccepted(d, PlanOf(d, q', xs').plan, b)
    requires SameEvidence(Rows(a), Rows(b))
    ensures CertificateOf(d, PlanOf(d, q, xs).plan, Observed(Rows(a))).evidenceRootSha256
      == CertificateOf(d, PlanOf(d, q', xs').plan, Observed(Rows(b))).evidenceRootSha256
  {
    ObservedIds(d, q, xs, a);
    ObservedIds(d, q', xs', b);
    SameEvidenceMap(Rows(a), Rows(b));
  }

  lemma {:induction false} ObservedIds(d: Digests, q: Request, xs: seq<Definition>, reports: seq<Report>)
    requires Plannable(q, xs) && MergeAccepted(d, PlanOf(d, q, xs).plan, reports)
    ensures Members(Map(RowId, Rows(reports))) == Members(Map(DefinitionId, xs))
  {
    ExpectedIds(d, q, xs);
  }

  // ----- and the hashed text determines that map

  const NUL := '\0'

  predicate NulFree(evidence: map<string, string>) {
    forall id :: id in evidence ==> NUL !in id && NUL !in evidence[id]
  }

  lemma {:induction false} LineCut(id: string, x: string, rest: string, id': string, x': string, rest': string)
    requires NUL !in id && NUL !in x && NUL !in id' && NUL !in x'
    requires Line(id, x) + rest == Line(id', x') + rest'
    ensures id == id' && x == x' && rest == rest'
  {
    assert Line(id, x) + rest == id + [NUL] + (x + [NUL] + rest);
    assert Line(id', x') + rest' == id' + [NUL] + (x' + [NUL] + rest');
    CutAtMark(NUL, id, id', x + [NUL] + rest, x' + [NUL] + rest');
    CutAtMark(NUL, x, x', rest, rest');
  }

  lemma {:induction false} LinesCut(a: seq<string>, x: map<string, string>, b: seq<string>, y: map<string, string>)
    requires NulFree(x) && NulFree(y)
    requires (forall id :: id in a ==> id in x) && (forall id :: id in b ==> id in y)
    requires Lines(a, x) == Lines(b, y)
    ensures a == b && forall id :: id in a ==> x[id] == y[id]
    decreases |a|
  {
    if a != [] {
      if b != [] {
        LineCut(a[0], x[a[0]], Lines(a[1..], x), b[0], y[b[0]], Lines(b[1..], y));
        LinesCut(a[1..], x, b[1..], y);
        assert a == [a[0]] + a[1..] && b == [b[0]] + b[1..];
      }
    }
  }

  /** For texts without NUL, the text under the root determines the scenario-to-evidence map. */
  lemma {:induction false} EvidenceTextExact(x: map<string, string>, y: map<string, string>)
    requires NulFree(x) && NulFree(y)
    ensures EvidenceText(x) == EvidenceText(y) <==> x == y
  {
    if EvidenceText(x) == EvidenceText(y) {
      LinesCut(SortedSet(x.Keys), x, SortedSet(y.Keys), y);
      SameKeys(x.Keys, y.Keys);
      assert forall id :: id in x ==> x[id] == y[id];
    }
  }

  lemma {:induction false} SameKeys(s: set<string>, t: set<string>)
    requires SortedSet(s) == SortedSet(t)
    ensures s == t
  {
    forall id ensures id in s <==> id in t {
      assert id in SortedSet(s) <==> id in s;
    }
  }

  /** No script looks at the form of the evidence digests, and with a NUL in one the text is ambiguous. */
  lemma {:induction false} NulMakesTextsAmbiguous(x: map<string, string>, y: map<string, string>)
    requires x == map["a" := "x", "b" := "y\0b\0z"] && y == map["a" := "x\0b\0y", "b" := "z"]
    ensures x != y && EvidenceText(x) == EvidenceText(y)
  {
    assert x["b"] == "y\0b\0z" && |x["b"]| == 5 && |y["b"]| == 1;
    TwoNames(x.Keys);
    TwoLines(x);
    TwoLines(y);
    SameLines();
  }

  lemma {:induction false} SameLines()
    ensures Line("a", "x") + Line("b", "y\0b\0z") == Line("a", "x\0b\0y") + Line("b", "z")
  {
    assert Line("a", "x") + Line("b", "y\0b\0z") == "a\0x\0b\0y\0b\0z\0";
    assert Line("a", "x\0b\0y") + Line("b", "z") == "a\0x\0b\0y\0b\0z\0";
  }

  lemma {:induction false} TwoNames(names: set<string>)
    requires names == {"a", "b"}
    ensures SortedSet(names) == ["a", "b"]
  {
    var r := SortedSet(names);
    assert |names| == 2;
    SortedSetIncreasing(names);
    assert r[0] in r && r[1] in r;
    assert Lt(r[0], r[1]);
    assert !Le("b", "a");
  }

  lemma {:induction false} TwoLines(evidence: map<string, string>)
    requires evidence.Keys == {"a", "b"} && SortedSet(evidence.Keys) == ["a", "b"]
    ensures EvidenceText(evidence) == Line("a", evidence["a"]) + Line("b", evidence["b"])
  {
    var names := ["a", "b"];
    assert names[1..] == ["b"] && ["b"][1..] == [];
    assert Lines(["b"], evidence) == Line("b", evidence["b"]) + Lines([], evidence);
    assert Lines(names, evidence) == Line("a", evidence["a"]) + Lines(["b"], evidence);
  }
}
