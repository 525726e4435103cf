/** An honest issuer: from a validated complete result and one reasoner check for each unit of multiplicity
    it builds the proof manifest and the certificate, and both validators accept them. */
module DirectIssue {
  import opened HexSha
  import opened Options
  import opened Orders
  import opened Sorting
  import opened Sequences
  import opened Counters
  import opened DirectEncoding
  import opened DirectSpelling
  import opened DirectResult
  import opened DirectCertificate
  import opened DirectProof

  // ----- one proof for each unit of multiplicity

  function Repeat<T>(x: T, n: int): (r: seq<T>)
    ensures |r| == if n < 0 then 0 else n
    ensures forall i :: 0 <= i < |r| ==> r[i] == x
  {
    if n <= 0 then [] else Repeat(x, n - 1) + [x]
  }

  /** Every row as often as its multiplicity says. */
  function Units(rows: seq<Solution>): seq<Row> {
    if rows == [] then [] else
      Units(rows[..|rows|-1]) + Repeat(rows[|rows|-1].bindings, rows[|rows|-1].multiplicity)
  }

  lemma {:induction false} UnitsTotal(rows: seq<Solution>)
    requires forall s :: s in rows ==> s.multiplicity >= 1
    ensures |Units(rows)| == TotalMultiplicity(rows)
  {
    if rows != [] {
      assert rows[|rows|-1] in rows;
      assert forall s :: s in rows[..|rows|-1] ==> s in rows;
      UnitsTotal(rows[..|rows|-1]);
    }
  }

  function UnitName(digest: Row -> string): Row -> string {
    (row: Row) => digest(row)
  }

  lemma {:induction false} RepeatCount(x: string, n: int, d: string)
    ensures multiset(Repeat(x, n))[d] == if x == d && n > 0 then n else 0
  {
    if n > 0 { RepeatCount(x, n - 1, d); }
  }

  lemma {:induction false} MapRepeat<A, B>(f: A -> B, x: A, n: int)
    ensures Map(f, Repeat(x, n)) == Repeat(f(x), n)
  {
    var a, b := Map(f, Repeat(x, n)), Repeat(f(x), n);
    assert forall i :: 0 <= i < |a| ==> a[i] == b[i];
  }

  lemma {:induction false} MapConcat<A, B>(f: A -> B, a: seq<A>, b: seq<A>)
    ensures Map(f, a + b) == Map(f, a) + Map(f, b)
  {
    var x, y := Map(f, a + b), Map(f, a) + Map(f, b);
    assert forall i :: 0 <= i < |x| ==> x[i] == y[i];
  }

  /** The multiplicities of the rows with this name. */
  function CountFor(digest: Row -> string, rows: seq<Solution>, d: string): int {
    if rows == [] then 0 else
      var last := rows[|rows|-1];
      CountFor(digest, rows[..|rows|-1], d) + if digest(last.bindings) == d then last.multiplicity else 0
  }

  lemma {:induction false} UnitsSnoc(digest: Row -> string, rows: seq<Solution>, d: string)
    requires rows != [] && rows[|rows|-1].multiplicity >= 1
    ensures multiset(Map(UnitName(digest), Units(rows)))[d]
      == multiset(Map(UnitName(digest), Units(rows[..|rows|-1])))[d]
         + if digest(rows[|rows|-1].bindings) == d then rows[|rows|-1].multiplicity else 0
  {
    var f, init, last := UnitName(digest), rows[..|rows|-1], rows[|rows|-1];
    MapConcat(f, Units(init), Repeat(last.bindings, last.multiplicity));
    MapRepeat(f, last.bindings, last.multiplicity);
    RepeatCount(digest(last.bindings), last.multiplicity, d);
    var a, b := Map(f, Units(init)), Repeat(digest(last.bindings), last.multiplicity);
    assert multiset(a + b)[d] == multiset(a)[d] + multiset(b)[d];
  }

  lemma {:induction false} UnitsCount(digest: Row -> string, rows: seq<Solution>, d: string)
    requires forall s :: s in rows ==> s.multiplicity >= 1
    ensures multiset(Map(UnitName(digest), Units(rows)))[d] == CountFor(digest, rows, d)
    decreases |rows|
  {
    if rows != [] {
      assert rows[|rows|-1] in rows && forall s :: s in rows[..|rows|-1] ==> s in rows;
      UnitsCount(digest, rows[..|rows|-1], d);
      UnitsSnoc(digest, rows, d);
    }
  }

  lemma {:induction false} CountNone(digest: Row -> string, rows: seq<Solution>, d: string)
    requires forall i :: 0 <= i < |rows| ==> digest(rows[i].bindings) != d
    ensures CountFor(digest, rows, d) == 0
  {
    if rows != [] { CountNone(digest, rows[..|rows|-1], d); }
  }

  /** With different names for the rows, each name counts its own row. */
  lemma {:induction false} CountOne(digest: Row -> string, rows: seq<Solution>, i: nat)
    requires i < |rows|
    requires forall j, k :: 0 <= j < k < |rows| ==> digest(rows[j].bindings) != digest(rows[k].bindings)
    ensures CountFor(digest, rows, digest(rows[i].bindings)) == rows[i].multiplicity
    decreases |rows|
  {
    var n := |rows| - 1;
    if i == n {
      CountNone(digest, rows[..n], digest(rows[n].bindings));
    } else {
      CountOne(digest, rows[..n], i);
    }
  }

  /** The names of the units cover the rows exactly. */
  lemma {:induction false} UnitsCover(digest: Row -> string, rows: seq<Solution>)
    requires forall s :: s in rows ==> s.multiplicity >= 1
    requires forall j, k :: 0 <= j < k < |rows| ==> digest(rows[j].bindings) != digest(rows[k].bindings)
    ensures ExactCover(Map(RowDigestOf(digest), rows), Map(MultiplicityOf, rows), Map(UnitName(digest), Units(rows)))
  {
    var keys, counts, names := Map(RowDigestOf(digest), rows), Map(MultiplicityOf, rows),
      Map(UnitName(digest), Units(rows));
    forall i | 0 <= i < |keys| ensures keys[i] == digest(rows[i].bindings) && multiset(names)[keys[i]] == counts[i] {
      assert keys[i] == RowDigestOf(digest)(rows[i]);
      UnitsCount(digest, rows, keys[i]);
      CountOne(digest, rows, i);
    }
    forall d | d in names ensures d in keys {
      UnitsCount(digest, rows, d);
      assert multiset(names)[d] > 0;
      if forall i :: 0 <= i < |rows| ==> digest(rows[i].bindings) != d { CountNone(digest, rows, d); }
      var i :| 0 <= i < |rows| && digest(rows[i].bindings) == d;
      assert keys[i] == d;
    }
  }

  // ----- the documents

  /** What one reasoner check leaves. */
  datatype Check = Check(
    partitionIndex: int, requestSha256: Text, groundedRdfSha256: Text, logicalAxiomsSha256: Text,
    logicalAxiomCount: int)

  predicate GoodCheck(c: Check) {
    && IsSha(c.requestSha256) && IsSha(c.groundedRdfSha256) && IsSha(c.logicalAxiomsSha256)
    && 0 <= c.partitionIndex < U32_LIMIT && 0 <= c.logicalAxiomCount < U64_LIMIT
  }

  /** The proof of one unit: its place, its row and its check, under the digest of all of these. */
  ghost predicate HonestProof(lib: Library, id: Identity, ordinal: int, row: Row, c: Check, p: AnswerProof)
    requires Readable(lib, id)
  {
    && p.candidateOrdinal == ordinal && p.partitionIndex == c.partitionIndex
    && p.requestSha256 == c.requestSha256 && p.bindingSha256 == BindingDigest(lib.sha, row)
    && p.groundedRdfSha256 == c.groundedRdfSha256 && p.logicalAxiomsSha256 == c.logicalAxiomsSha256
    && p.logicalAxiomCount == c.logicalAxiomCount
    && ProofPackable(p) && p.supportId == HexDigest(lib.sha, SupportBytes(lib, id, p))
  }

  /** One proof for each unit, in order. */
  ghost predicate HonestProofs(
    lib: Library, id: Identity, units: seq<Row>, checks: seq<Check>, proofs: seq<AnswerProof>)
    requires Readable(lib, id)
  {
    && |proofs| == |units| == |checks|
    && forall i :: 0 <= i < |proofs| ==>
         GoodCheck(checks[i]) && HonestProof(lib, id, i, units[i], checks[i], proofs[i])
  }

  /** What the issuer knows of the execution. */
  datatype Execution = Execution(
    candidateSpaceSha256: Text, executionRootSha256: Text, engineVersion: Text, adapterName: Text, requestSha256: Text,
    partitions: int, requests: int, inputs: seq<OntologyInput>)

  /** A name of 1 to 256 visible ASCII characters. */
  predicate PlainName(s: Text) {
    1 <= |s| <= 256 && forall i :: 0 <= i < |s| ==> 32 <= s[i] as int < 127
  }

  predicate GoodExecution(x: Execution) {
    && IsSha(x.candidateSpaceSha256) && IsSha(x.executionRootSha256) && IsSha(x.requestSha256)
    && PlainName(x.engineVersion) && PlainName(x.adapterName)
    && 1 <= x.partitions <= 1_000_000 && x.requests >= 0
    && |x.inputs| <= 1_000_000 && forall i :: 0 <= i < |x.inputs| ==> InputSchemaValid(x.inputs[i])
  }

  /** The manifest of the run, under the digest of what it says of the run. */
  ghost predicate HonestManifest(
    lib: Library, id: Identity, resultSha: Text, x: Execution, proofs: seq<AnswerProof>, m: Manifest)
    requires Readable(lib, id)
  {
    && m == Manifest(id, resultSha, x.candidateSpaceSha256, x.executionRootSha256, "HermiT", x.engineVersion, "40.9",
                     m.completionSupportId, x.inputs, proofs)
    && m.completionSupportId == HexDigest(lib.sha, CompletionBytes(lib, m))
  }

  /** References to the completion record and to every proof, in order, all into this manifest. */
  ghost predicate HonestReferences(m: Manifest, refs: seq<SupportReference>, manifestSha: Text) {
    && Map(ReferenceOf, refs) == SortedSet({m.completionSupportId} + Members(Map(SupportOf, m.answerProofs)))
    && forall i :: 0 <= i < |refs| ==>
         refs[i] == SupportReference(refs[i].supportId, ReasonerCheck, Some(manifestSha), None)
  }

  function CertificateFor(
      r: Result, x: Execution, resultSha: Text, refs: seq<SupportReference>, manifestSha: Text): Certificate
  {
    Certificate(
      2, r.id, resultSha, Reasoner("HermiT", x.engineVersion, x.adapterName, "40.9", x.requestSha256),
      Evidence(x.candidateSpaceSha256, r.candidateBindingCount, r.candidateBindingCount, x.partitions, x.partitions,
               x.requests, x.requests, x.executionRootSha256),
      CompleteCoverage, refs, Some(manifestSha))
  }

  // ----- forms

  lemma {:induction false} HexIsSha(b: Bytes)
    requires forall i :: 0 <= i < |b| ==> b[i] as int < 256
    ensures forall i :: 0 <= i < |Hex(b)| ==> HexChar(Hex(b)[i])
  {
    if b != [] {
      HexIsSha(b[1..]);
      assert HexChar(HexDigit(b[0] as int / 16)) && HexChar(HexDigit(b[0] as int % 16));
    }
  }

  lemma {:induction false} DigestIsSha(sha: Sha256, preimage: Bytes)
    ensures IsSha(HexDigest(sha, preimage)) && ShaPattern(HexDigest(sha, preimage))
  {
    HexIsSha(sha(preimage));
    ShaHasPattern(HexDigest(sha, preimage));
  }

  lemma {:induction false} ShaHasPattern(s: Text)
    requires IsSha(s)
    ensures ShaPattern(s)
  {
    assert HexChar(s[63]);
  }

  lemma {:induction false} PlainCodePoints(s: string)
    requires forall i :: 0 <= i < |s| ==> s[i] as int < 0x80
    ensures CodePoints(s) == |s|
  {
    if s != [] { PlainCodePoints(s[1..]); }
  }

  lemma {:induction false} PlainNameValid(s: Text)
    requires PlainName(s)
    ensures LengthBetween(s, 1, 256) && ReasonerField(s)
  {
    PlainCodePoints(s);
  }

  // ----- both validators accept

  lemma {:induction false} ProofsSchemaValid(
      lib: Library, id: Identity, units: seq<Row>, checks: seq<Check>, proofs: seq<AnswerProof>)
    requires Readable(lib, id) && HonestProofs(lib, id, units, checks, proofs)
    ensures OrdinalsIncreasing(proofs)
    ensures forall i :: 0 <= i < |proofs| ==> ProofSchemaValid(proofs[i])
    ensures forall i :: 0 <= i < |proofs| ==> SupportDigest(lib, id, proofs[i]) == Some(proofs[i].supportId)
  {
    forall i | 0 <= i < |proofs|
      ensures proofs[i].candidateOrdinal == i && ProofSchemaValid(proofs[i])
      ensures SupportDigest(lib, id, proofs[i]) == Some(proofs[i].supportId)
    {
      assert HonestProof(lib, id, i, units[i], checks[i], proofs[i]);
      OneProofValid(lib, id, i, units[i], checks[i], proofs[i]);
    }
  }

  lemma {:induction false} OneProofValid(lib: Library, id: Identity, i: nat, row: Row, c: Check, p: AnswerProof)
    requires Readable(lib, id) && GoodCheck(c) && HonestProof(lib, id, i, row, c, p)
    ensures ProofSchemaValid(p) && SupportDigest(lib, id, p) == Some(p.supportId)
  {
    DigestIsSha(lib.sha, SupportBytes(lib, id, p));
    DigestIsSha(lib.sha, BindingBytes(row));
    ProofPatterns(p);
  }

  lemma {:induction false} ProofPatterns(p: AnswerProof)
    requires IsSha(p.supportId) && IsSha(p.requestSha256) && IsSha(p.bindingSha256) && IsSha(p.groundedRdfSha256)
    requires IsSha(p.logicalAxiomsSha256) && p.candidateOrdinal >= 0 && p.partitionIndex >= 0
    requires p.logicalAxiomCount >= 0
    ensures ProofSchemaValid(p)
  {
    ShaHasPattern(p.supportId);
    ShaHasPattern(p.requestSha256);
    ShaHasPattern(p.bindingSha256);
    ShaHasPattern(p.groundedRdfSha256);
    ShaHasPattern(p.logicalAxiomsSha256);
  }

  lemma {:induction false} ProofsCover(
      lib: Library, id: Identity, rows: seq<Solution>, checks: seq<Check>, proofs: seq<AnswerProof>)
    requires Readable(lib, id) && HonestProofs(lib, id, Units(rows), checks, proofs)
    requires forall s :: s in rows ==> s.multiplicity >= 1
    requires forall i, j :: 0 <= i < j < |rows| ==>
      BindingDigest(lib.sha, rows[i].bindings) != BindingDigest(lib.sha, rows[j].bindings)
    ensures Covers(BindingDigester(lib.sha), rows, proofs) && |proofs| == TotalMultiplicity(rows)
  {
    var digest := BindingDigester(lib.sha);
    forall i | 0 <= i < |proofs| ensures proofs[i].bindingSha256 == digest(Units(rows)[i]) {
      assert HonestProof(lib, id, i, Units(rows)[i], checks[i], proofs[i]);
    }
    CoverFrom(digest, rows, proofs);
  }

  lemma {:induction false} CoverFrom(digest: Row -> string, rows: seq<Solution>, proofs: seq<AnswerProof>)
    requires forall s :: s in rows ==> s.multiplicity >= 1
    requires forall j, k :: 0 <= j < k < |rows| ==> digest(rows[j].bindings) != digest(rows[k].bindings)
    requires |proofs| == |Units(rows)|
    requires forall i :: 0 <= i < |proofs| ==> proofs[i].bindingSha256 == digest(Units(rows)[i])
    ensures Covers(digest, rows, proofs) && |proofs| == TotalMultiplicity(rows)
  {
    UnitsCover(digest, rows);
    UnitsTotal(rows);
    SameNames(digest, Units(rows), proofs);
  }

  lemma {:induction false} SameNames(digest: Row -> string, units: seq<Row>, proofs: seq<AnswerProof>)
    requires |proofs| == |units| && forall i :: 0 <= i < |proofs| ==> proofs[i].bindingSha256 == digest(units[i])
    ensures Map(BindingOf, proofs) == Map(UnitName(digest), units)
  {
    var a, b := Map(BindingOf, proofs), Map(UnitName(digest), units);
    forall i | 0 <= i < |a| ensures a[i] == b[i] {
      assert a[i] == BindingOf(proofs[i]) && b[i] == UnitName(digest)(units[i]);
    }
  }

  lemma {:induction false} ReferencesMatch(m: Manifest, refs: seq<SupportReference>, manifestSha: Text)
    requires HonestReferences(m, refs, manifestSha)
    ensures IdsMatch(m, refs) && ReferencesSorted(refs) && BoundToManifest(refs, manifestSha)
    ensures refs != [] && |refs| <= |m.answerProofs| + 1
  {
    var ids, names := {m.completionSupportId} + Members(Map(SupportOf, m.answerProofs)), Map(ReferenceOf, refs);
    SortedSetIncreasing(ids);
    assert (set x | x in names) == ids;
    forall i, j | 0 <= i < j < |refs| ensures Lt(refs[i].supportId, refs[j].supportId) {
      assert names[i] == ReferenceOf(refs[i]) && names[j] == ReferenceOf(refs[j]);
      assert Lt(names[i], names[j]);
    }
    assert Distinct(names);
    DistinctBySize(Map(SupportOf, m.answerProofs));
    assert m.completionSupportId in ids && m.completionSupportId in names;
  }

  lemma {:induction false} ReferencesSchemaValid(m: Manifest, refs: seq<SupportReference>, manifestSha: Text)
    requires HonestReferences(m, refs, manifestSha) && ShaPattern(manifestSha) && ShaPattern(m.completionSupportId)
    requires forall i :: 0 <= i < |m.answerProofs| ==> ShaPattern(m.answerProofs[i].supportId)
    ensures forall i :: 0 <= i < |refs| ==> ReferenceSchemaValid(refs[i]) && refs[i].sourceGraphIri.None?
  {
    var names, supports := Map(ReferenceOf, refs), Map(SupportOf, m.answerProofs);
    forall i | 0 <= i < |refs| ensures ReferenceSchemaValid(refs[i]) && refs[i].sourceGraphIri.None? {
      assert names[i] == refs[i].supportId && names[i] in names;
      if names[i] in supports {
        var j :| 0 <= j < |supports| && supports[j] == names[i];
        assert supports[j] == m.answerProofs[j].supportId;
      }
    }
  }

  lemma {:induction false} NamesValid(x: Execution)
    requires GoodExecution(x)
    ensures LengthBetween("HermiT", 1, 256) && LengthBetween("40.9", 1, 256)
    ensures ReasonerField("HermiT") && ReasonerField("40.9")
    ensures LengthBetween(x.engineVersion, 1, 256) && LengthBetween(x.adapterName, 1, 256)
    ensures ReasonerField(x.engineVersion) && ReasonerField(x.adapterName)
  {
    var engine, adapter := ['H', 'e', 'r', 'm', 'i', 'T'], ['4', '0', '.', '9'];
    assert engine == "HermiT" && adapter == "40.9";
    PlainNameValid(engine);
    PlainNameValid(adapter);
    PlainNameValid(x.engineVersion);
    PlainNameValid(x.adapterName);
  }

  lemma {:induction false} CertificateGood(
      lib: Library, r: Result, x: Execution, m: Manifest, resultSha: Text, refs: seq<SupportReference>,
      manifestSha: Text)
    requires SchemaValid(lib, r) && SemanticallyValid(lib, r) && GoodExecution(x)
    requires IsSha(resultSha) && IsSha(manifestSha) && |m.answerProofs| < 1_000_000
    requires HonestReferences(m, refs, manifestSha) && ShaPattern(m.completionSupportId)
    requires forall i :: 0 <= i < |m.answerProofs| ==> ShaPattern(m.answerProofs[i].supportId)
    ensures CertificateSchemaValid(CertificateFor(r, x, resultSha, refs, manifestSha))
    ensures CertificateWellFormed(lib, CertificateFor(r, x, resultSha, refs, manifestSha))
  {
    ShaHasPattern(resultSha);
    ShaHasPattern(manifestSha);
    ShaHasPattern(x.candidateSpaceSha256);
    ShaHasPattern(x.executionRootSha256);
    ShaHasPattern(x.requestSha256);
    NamesValid(x);
    ReferencesMatch(m, refs, manifestSha);
    ReferencesSchemaValid(m, refs, manifestSha);
  }

  lemma {:induction false} ManifestGood(
      lib: Library, id: Identity, resultSha: Text, x: Execution, units: seq<Row>, checks: seq<Check>, m: Manifest)
    requires Readable(lib, id) && IdentitySchemaValid(id) && IsSha(resultSha) && GoodExecution(x)
    requires HonestProofs(lib, id, units, checks, m.answerProofs) && |units| < 1_000_000
    requires HonestManifest(lib, id, resultSha, x, m.answerProofs, m)
    ensures ManifestSchemaValid(m) && CompletionDigest(lib, m) == Some(m.completionSupportId)
    ensures OrdinalsIncreasing(m.answerProofs) && Supported(lib, m)
  {
    ShaHasPattern(resultSha);
    ShaHasPattern(x.candidateSpaceSha256);
    ShaHasPattern(x.executionRootSha256);
    DigestIsSha(lib.sha, CompletionBytes(lib, m));
    NamesValid(x);
    ProofsSchemaValid(lib, id, units, checks, m.answerProofs);
  }

  lemma {:induction false} ResultDigestForm(lib: Library, r: Result)
    requires ResultDigest(lib, r).Some?
    ensures IsSha(ResultDigest(lib, r).value) && Readable(lib, r.id) && SchemaValid(lib, r)
  {
    DigestIsSha(lib.sha, ResultBytes(lib, r));
  }

  /** The documents an honest issuer makes of a validated, complete result whose rows have different
      binding digests. */
  ghost predicate HonestBundle(
    lib: Library, r: Result, resultSha: Text, x: Execution, checks: seq<Check>, m: Manifest,
    refs: seq<SupportReference>, manifestSha: Text)
  {
    && ResultDigest(lib, r) == Some(resultSha) && Readable(lib, r.id) && SemanticallyValid(lib, r)
    && r.outcome.status.CompleteStatus? && r.solutionMultiplicityTotal < 1_000_000
    && GoodExecution(x) && IsSha(manifestSha)
    && (forall i, j :: 0 <= i < j < |r.solutions| ==>
          BindingDigest(lib.sha, r.solutions[i].bindings) != BindingDigest(lib.sha, r.solutions[j].bindings))
    && HonestProofs(lib, r.id, Units(r.solutions), checks, m.answerProofs)
    && HonestManifest(lib, r.id, resultSha, x, m.answerProofs, m)
    && HonestReferences(m, refs, manifestSha)
  }

  lemma {:induction false} HonestManifestGood(
      lib: Library, r: Result, resultSha: Text, x: Execution, checks: seq<Check>, m: Manifest,
      refs: seq<SupportReference>, manifestSha: Text)
    requires HonestBundle(lib, r, resultSha, x, checks, m, refs, manifestSha)
    ensures ManifestSchemaValid(m) && CompletionDigest(lib, m) == Some(m.completionSupportId)
    ensures OrdinalsIncreasing(m.answerProofs) && Supported(lib, m)
    ensures Covers(BindingDigester(lib.sha), r.solutions, m.answerProofs)
    ensures |m.answerProofs| == r.solutionMultiplicityTotal
  {
    ResultDigestForm(lib, r);
    ResultRows(lib, r);
    ProofsCover(lib, r.id, r.solutions, checks, m.answerProofs);
    ManifestGood(lib, r.id, resultSha, x, Units(r.solutions), checks, m);
  }

  /** The certificate validator accepts the honest certificate, with or without its result. */
  lemma {:induction false} HonestCertificateAccepted(
      lib: Library, r: Result, resultSha: Text, x: Execution, checks: seq<Check>, m: Manifest,
      refs: seq<SupportReference>, manifestSha: Text)
    requires HonestBundle(lib, r, resultSha, x, checks, m, refs, manifestSha)
    ensures CertificateSchemaValid(CertificateFor(r, x, resultSha, refs, manifestSha))
    ensures CertificateWellFormed(lib, CertificateFor(r, x, resultSha, refs, manifestSha))
    ensures BindsResult(lib, CertificateFor(r, x, resultSha, refs, manifestSha), r)
  {
    ResultDigestForm(lib, r);
    HonestManifestGood(lib, r, resultSha, x, checks, m, refs, manifestSha);
    SupportsPatterned(m);
    CertificateGood(lib, r, x, m, resultSha, refs, manifestSha);
    CertificateBinds(lib, r, x, resultSha, refs, manifestSha);
  }

  lemma {:induction false} SupportsPatterned(m: Manifest)
    requires ManifestSchemaValid(m)
    ensures ShaPattern(m.completionSupportId)
    ensures forall i :: 0 <= i < |m.answerProofs| ==> ShaPattern(m.answerProofs[i].supportId)
  {
    forall i | 0 <= i < |m.answerProofs| ensures ShaPattern(m.answerProofs[i].supportId) {
      assert ProofSchemaValid(m.answerProofs[i]);
    }
  }

  lemma {:induction false} CertificateBinds(
      lib: Library, r: Result, x: Execution, resultSha: Text, refs: seq<SupportReference>, manifestSha: Text)
    requires SchemaValid(lib, r) && ResultDigest(lib, r) == Some(resultSha) && r.outcome.status.CompleteStatus?
    ensures BindsResult(lib, CertificateFor(r, x, resultSha, refs, manifestSha), r)
  {
  }

  /** The proof validator accepts the honest bundle: no rule of either validator refuses good work. */
  lemma {:induction false} HonestBundleAccepted(
      lib: Library, r: Result, resultSha: Text, x: Execution, checks: seq<Check>, m: Manifest,
      refs: seq<SupportReference>, manifestSha: Text)
    requires HonestBundle(lib, r, resultSha, x, checks, m, refs, manifestSha)
    ensures ProofAccepted(lib, m, r, CertificateFor(r, x, resultSha, refs, manifestSha), manifestSha)
  {
    ResultDigestForm(lib, r);
    HonestManifestGood(lib, r, resultSha, x, checks, m, refs, manifestSha);
    HonestCertificateAccepted(lib, r, resultSha, x, checks, m, refs, manifestSha);
    ReferencesMatch(m, refs, manifestSha);
    DocumentsConsistent(lib, r, x, m, resultSha, refs, manifestSha);
    AcceptedFrom(lib, m, r, CertificateFor(r, x, resultSha, refs, manifestSha), manifestSha);
  }

  lemma {:induction false} AcceptedFrom(lib: Library, m: Manifest, r: Result, c: Certificate, manifestSha: Text)
    requires Consistent(lib, m, r, c, manifestSha) && Covers(BindingDigester(lib.sha), r.solutions, m.answerProofs)
    requires |m.answerProofs| == r.solutionMultiplicityTotal && IdsMatch(m, c.supportReferences)
    requires BoundToManifest(c.supportReferences, manifestSha)
    ensures ProofAccepted(lib, m, r, c, manifestSha)
  {
  }

  lemma {:induction false} ResultRows(lib: Library, r: Result)
    requires SchemaValid(lib, r) && SemanticallyValid(lib, r)
    ensures IdentitySchemaValid(r.id) && (forall s :: s in r.solutions ==> s.multiplicity >= 1)
    ensures TotalMultiplicity(r.solutions) == r.solutionMultiplicityTotal
  {
    assert forall s :: s in r.solutions ==> SolutionSchemaValid(lib, s);
  }

  lemma {:induction false} DocumentsConsistent(
      lib: Library, r: Result, x: Execution, m: Manifest, resultSha: Text, refs: seq<SupportReference>,
      manifestSha: Text)
    requires SchemaValid(lib, r) && Readable(lib, r.id) && ResultDigest(lib, r) == Some(resultSha)
    requires r.outcome.status.CompleteStatus?
    requires HonestManifest(lib, r.id, resultSha, x, m.answerProofs, m)
    requires ManifestSchemaValid(m) && CompletionDigest(lib, m) == Some(m.completionSupportId)
    requires OrdinalsIncreasing(m.answerProofs) && Supported(lib, m)
    requires CertificateSchemaValid(CertificateFor(r, x, resultSha, refs, manifestSha))
    ensures Consistent(lib, m, r, CertificateFor(r, x, resultSha, refs, manifestSha), manifestSha)
  {
  }

  // ----- and what an accepted bundle means

  /** An accepted bundle is about one run: the three documents have one identity, the manifest and the
      certificate one result digest, one candidate space, one execution and one reasoner, and the certificate
      is of version 2 and names the manifest. */
  lemma {:induction false} BundleMeans(lib: Library, m: Manifest, r: Result, c: Certificate, manifestSha: Text)
    requires ProofAccepted(lib, m, r, c, manifestSha)
    ensures m.id == r.id == c.id
    ensures Some(m.directBgpResultSha256) == Some(c.directBgpResultSha256) == ResultDigest(lib, r)
    ensures m.candidateSpaceSha256 == c.completeness.candidateSpaceSha256
    ensures m.executionRootSha256 == c.completeness.executionRootSha256
    ensures m.reasonerEngine == c.reasoner.engine == "HermiT" && m.reasonerVersion == c.reasoner.engineVersion
    ensures m.adapterVersion == c.reasoner.adapterVersion == "40.9"
    ensures c.formatVersion == 2 && c.proofManifestSha256 == Some(manifestSha) && c.proofCoverage.CompleteCoverage?
    ensures forall i :: 0 <= i < |c.supportReferences| ==>
      c.supportReferences[i].kind.ReasonerCheck? && c.supportReferences[i].artifactSha256 == Some(manifestSha)
  {
  }
}
