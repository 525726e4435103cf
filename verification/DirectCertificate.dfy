/** The result validator and the certificate validator, and what a certificate pins down. */
module DirectCertificate {
  import opened HexSha
  import opened Options
  import opened Orders
  import opened Sorting
  import opened DirectEncoding
  import opened DirectSpelling
  import opened DirectResult
  import opened DirectDigest

  const RDF_LANG: string := "http://www.w3.org/1999/02/22-rdf-syntax-ns#langString"

  // ----- the Direct-BGP result validator

  predicate TermValid(lib: Library, t: Term) {
    match t
    case Iri(value) => AbsoluteIri(lib, value)
    case BlankNode(value) => BlankNodeLabel(lib, value)
    case Literal(_, datatypeIri, language) =>
      AbsoluteIri(lib, datatypeIri) && (language.Some? ==> datatypeIri == RDF_LANG)
  }

  predicate RowValid(lib: Library, variables: seq<Text>, row: Row) {
    && (forall k :: k in row ==> k in variables)
    && (forall k :: k in row ==> TermValid(lib, row[k]))
  }

  predicate GraphValid(lib: Library, g: Graph) {
    match g
    case DefaultGraph(sha) => IsSha(sha)
    case NamedGraph(iri) => AbsoluteIri(lib, iri)
  }

  function TotalMultiplicity(rows: seq<Solution>): int {
    if rows == [] then 0 else TotalMultiplicity(rows[..|rows|-1]) + rows[|rows|-1].multiplicity
  }

  predicate SemanticallyValid(lib: Library, r: Result) {
    && StrictlyIncreasing(r.variables)
    && (forall v :: v in r.variables ==> VariableName(lib, v))
    && GraphValid(lib, r.id.graphContext)
    && RowsValid(RowTest(lib, r.variables), r.solutions)
    && TotalMultiplicity(r.solutions) == r.solutionMultiplicityTotal < U64_LIMIT
    && (r.outcome.status.CompleteStatus? ==> r.candidateBindingCount >= |r.solutions|)
  }

  function RowTest(lib: Library, variables: seq<Text>): Row -> bool {
    (row: Row) => RowValid(lib, variables, row)
  }

  predicate RowsValid(valid: Row -> bool, rows: seq<Solution>) {
    forall i :: 0 <= i < |rows| ==> valid(rows[i].bindings)
  }

  /** The loop over the solutions: the checked running total, or none on the first bad row. */
  method CheckRows(valid: Row -> bool, rows: seq<Solution>) returns (total: Option<int>)
    requires forall s :: s in rows ==> s.multiplicity >= 1
    ensures total == if RowsValid(valid, rows) && TotalMultiplicity(rows) < U64_LIMIT
                     then Some(TotalMultiplicity(rows)) else None
  {
    var sum := 0;
    for i := 0 to |rows|
      invariant sum == TotalMultiplicity(rows[..i]) < U64_LIMIT
      invariant forall j :: 0 <= j < i ==> valid(rows[j].bindings)
    {
      if !valid(rows[i].bindings) { return None; }
      assert rows[..i+1][..i] == rows[..i];
      sum := sum + rows[i].multiplicity;
      if sum >= U64_LIMIT {
        TotalGrows(rows, i + 1);
        return None;
      }
    }
    assert rows[..|rows|] == rows;
    return Some(sum);
  }

  method ValidateResult(lib: Library, r: Result) returns (ok: bool)
    ensures ok <==> SchemaValid(lib, r) && SemanticallyValid(lib, r)
  {
    if !SchemaValid(lib, r) { return false; }
    if !StrictlyIncreasing(r.variables) || exists v :: v in r.variables && !VariableName(lib, v) { return false; }
    if !GraphValid(lib, r.id.graphContext) { return false; }
    assert forall s :: s in r.solutions ==> s.multiplicity >= 1;
    var total := CheckRows(RowTest(lib, r.variables), r.solutions);
    if total != Some(r.solutionMultiplicityTotal) { return false; }
    return r.outcome.status.CompleteStatus? ==> r.candidateBindingCount >= |r.solutions|;
  }

  /** With positive multiplicities a running total never shrinks. */
  lemma {:induction false} TotalGrows(rows: seq<Solution>, k: nat)
    requires k <= |rows| && forall s :: s in rows ==> s.multiplicity >= 1
    ensures TotalMultiplicity(rows[..k]) <= TotalMultiplicity(rows)
    ensures forall i :: 0 <= i < |rows| ==> rows[i].multiplicity <= TotalMultiplicity(rows)
    ensures TotalMultiplicity(rows) >= 0
    decreases |rows|
  {
    if rows != [] {
      var init := rows[..|rows|-1];
      assert rows[|rows|-1] in rows;
      assert forall s :: s in init ==> s in rows;
      if k < |rows| {
        assert rows[..k] == init[..k];
        TotalGrows(init, k);
      } else {
        assert rows[..k] == rows;
        TotalGrows(init, 0);
      }
      assert forall i :: 0 <= i < |init| ==> rows[i] == init[i];
    }
  }

  /** A validated result can be digested exactly when `uuid.UUID` reads its identifiers and its
      candidate count fits a u64: the validator bounds every other count, but not that one, and the
      schema does not enforce the format of the identifiers. */
  lemma {:induction false} ValidResultEncodable(lib: Library, r: Result)
    requires SchemaValid(lib, r) && SemanticallyValid(lib, r)
    requires |r.variables| < MAX_LENGTH && |r.solutions| < MAX_LENGTH
    ensures Encodable(lib, r) <==> Readable(lib, r.id) && r.candidateBindingCount < U64_LIMIT
  {
    assert forall s :: s in r.solutions ==> s.multiplicity >= 1;
    RowsPackable(r.solutions);
  }

  lemma {:induction false} RowsPackable(rows: seq<Solution>)
    requires (forall s :: s in rows ==> s.multiplicity >= 1) && TotalMultiplicity(rows) < U64_LIMIT
    ensures Packable(rows)
  {
    TotalGrows(rows, 0);
    forall s | s in rows ensures U64Range(s.multiplicity) {
      var i :| 0 <= i < |rows| && rows[i] == s;
    }
  }

  // ----- the certificate validator

  datatype SupportKind =
    | OntologyInput | AssertedAxiom | EntailedAxiom | OntologyImport | ClosureArtifact | ReasonerCheck

  datatype SupportReference = SupportReference(
    supportId: Text, kind: SupportKind, artifactSha256: Option<Text>, sourceGraphIri: Option<Text>)

  datatype Reasoner = Reasoner(
    engine: Text, engineVersion: Text, adapterName: Text, adapterVersion: Text, requestSha256: Text)

  datatype Evidence = Evidence(
    candidateSpaceSha256: Text, candidateBindingCount: int, checkedCandidateBindingCount: int,
    partitionCount: int, completedPartitionCount: int,
    reasonerRequestCount: int, successfulReasonerRequestCount: int, executionRootSha256: Text)

  datatype Coverage = NotAvailable | PartialCoverage | CompleteCoverage

  datatype Certificate = Certificate(
    formatVersion: int,
    id: Identity,
    directBgpResultSha256: Text,
    reasoner: Reasoner,
    completeness: Evidence,
    proofCoverage: Coverage,
    supportReferences: seq<SupportReference>,
    proofManifestSha256: Option<Text>)

  predicate ReasonerSchemaValid(x: Reasoner) {
    && LengthBetween(x.engine, 1, 256) && LengthBetween(x.engineVersion, 1, 256)
    && LengthBetween(x.adapterName, 1, 256) && LengthBetween(x.adapterVersion, 1, 256)
    && ShaPattern(x.requestSha256)
  }

  predicate EvidenceSchemaValid(x: Evidence) {
    && ShaPattern(x.candidateSpaceSha256) && ShaPattern(x.executionRootSha256)
    && x.candidateBindingCount >= 0 && x.checkedCandidateBindingCount >= 0
    && 1 <= x.partitionCount <= 1_000_000 && 0 <= x.completedPartitionCount <= 1_000_000
    && x.reasonerRequestCount >= 0 && x.successfulReasonerRequestCount >= 0
  }

  predicate ReferenceSchemaValid(x: SupportReference) {
    && ShaPattern(x.supportId) && (x.artifactSha256.Some? ==> ShaPattern(x.artifactSha256.value))
    && (x.sourceGraphIri.Some? ==> LengthBetween(x.sourceGraphIri.value, 3, 8192))
  }

  predicate CertificateSchemaValid(c: Certificate) {
    && c.formatVersion in {1, 2}
    && IdentitySchemaValid(c.id) && ShaPattern(c.directBgpResultSha256)
    && ReasonerSchemaValid(c.reasoner) && EvidenceSchemaValid(c.completeness)
    && |c.supportReferences| <= 1_000_000
    && (forall i :: 0 <= i < |c.supportReferences| ==> ReferenceSchemaValid(c.supportReferences[i]))
    && (c.proofManifestSha256.Some? ==> ShaPattern(c.proofManifestSha256.value))
    && (c.formatVersion == 2 ==>
          c.proofManifestSha256.Some? && c.proofCoverage.CompleteCoverage? && c.supportReferences != [])
  }

  predicate ReferencesSorted(refs: seq<SupportReference>) {
    forall i, j :: 0 <= i < j < |refs| ==> Lt(refs[i].supportId, refs[j].supportId)
  }

  predicate BoundToManifest(refs: seq<SupportReference>, manifestSha: Text) {
    forall i :: 0 <= i < |refs| ==> refs[i].kind.ReasonerCheck? && refs[i].artifactSha256 == Some(manifestSha)
  }

  predicate CertificateWellFormed(lib: Library, c: Certificate) {
    && (c.id.graphContext.NamedGraph? ==> AbsoluteIri(lib, c.id.graphContext.graphIri))
    && ReasonerField(c.reasoner.engine) && ReasonerField(c.reasoner.engineVersion)
    && ReasonerField(c.reasoner.adapterName) && ReasonerField(c.reasoner.adapterVersion)
    && c.completeness.checkedCandidateBindingCount == c.completeness.candidateBindingCount
    && c.completeness.completedPartitionCount == c.completeness.partitionCount
    && c.completeness.successfulReasonerRequestCount == c.completeness.reasonerRequestCount
    && ReferencesSorted(c.supportReferences)
    && (forall i :: 0 <= i < |c.supportReferences| && c.supportReferences[i].sourceGraphIri.Some?
          ==> AbsoluteIri(lib, c.supportReferences[i].sourceGraphIri.value))
    && (c.proofCoverage.CompleteCoverage? ==> c.supportReferences != [])
    && (if c.formatVersion == 2
        then && c.proofManifestSha256.Some? && IsSha(c.proofManifestSha256.value)
             && c.proofCoverage.CompleteCoverage?
             && BoundToManifest(c.supportReferences, c.proofManifestSha256.value)
        else c.proofManifestSha256.None?)
  }

  /** The certificate names this result: the same identity texts, an exact complete outcome, the same
      candidate count and digest. */
  predicate BindsResult(lib: Library, c: Certificate, r: Result) {
    && c.id == r.id
    && r.outcome == Outcome(CompleteStatus, Exact, Complete) && r.error.None?
    && c.completeness.candidateBindingCount == r.candidateBindingCount
    && ResultDigest(lib, r) == Some(c.directBgpResultSha256)
  }

  /** `validate`: the schema, then `semantic_validate` with or without a result. */
  method ValidateCertificate(lib: Library, c: Certificate, result: Option<Result>) returns (ok: bool)
    requires result.Some? ==> |result.value.variables| < MAX_LENGTH && |result.value.solutions| < MAX_LENGTH
    ensures ok <==>
      && CertificateSchemaValid(c) && CertificateWellFormed(lib, c)
      && (result.Some? ==> BindsResult(lib, c, result.value))
  {
    if !CertificateSchemaValid(c) || !CertificateWellFormed(lib, c) { return false; }
    if result.None? { return true; }
    var r := result.value;
    if c.id != r.id { return false; }
    if r.outcome != Outcome(CompleteStatus, Exact, Complete) || r.error.Some? { return false; }
    if c.completeness.candidateBindingCount != r.candidateBindingCount { return false; }
    var observed := ResultSha256(lib, r);
    return observed == Some(c.directBgpResultSha256);
  }

  /** One certificate never vouches for two different answers: any two results it accepts are
      the same bag of solutions over the same variables, for the same query and snapshot, spelled alike. */
  lemma {:induction false} CertificateBindsOneAnswer(lib: Library, c: Certificate, a: Result, b: Result)
    requires BindsResult(lib, c, a) && BindsResult(lib, c, b)
    requires CollisionFree(lib.sha, DigestInputs(lib, a, b))
    ensures SameResult(a, b)
  {
    DigestDeterminesResult(lib, a, b);
  }

  /** And it accepts every reordering of a result it accepts. */
  lemma {:induction false} CertificateIgnoresDeliveryOrder(lib: Library, c: Certificate, a: Result, b: Result)
    requires BindsResult(lib, c, a) && SameResult(a, b)
    requires |b.variables| < MAX_LENGTH && |b.solutions| < MAX_LENGTH
    ensures BindsResult(lib, c, b)
  {
    SameMembers(a.solutions, b.solutions);
    assert Encodable(lib, b) && SchemaValid(lib, b);
    PreimageForgetsOrder(lib, a, b);
  }

  /** But not a respelling: a certificate refuses the twin that has the same digest. */
  lemma {:induction false} CertificateReadsTheSpelling(lib: Library, c: Certificate, a: Result, b: Result)
    requires BindsResult(lib, c, a) && SameAnswer(lib, a, b) && Encodable(lib, b) && SchemaValid(lib, b)
    ensures ResultDigest(lib, b) == Some(c.directBgpResultSha256)
    ensures BindsResult(lib, c, b) <==> SameSpelling(a.id, b.id)
  {
    PreimageForgetsOrder(lib, a, b);
  }
}
