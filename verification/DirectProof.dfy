/** The proof manifest validator: every solution, counted with multiplicity, carries its own
    reasoner-check record, and the certificate references exactly those records. */
module DirectProof {
  import opened Options
  import opened Sorting
  import opened Sequences
  import opened Counters
  import opened DirectEncoding
  import opened DirectResult
  import opened DirectSpelling
  import opened DirectCertificate

  datatype AnswerProof = AnswerProof(
    supportId: Text, candidateOrdinal: int, partitionIndex: int,
    requestSha256: Text, bindingSha256: Text, groundedRdfSha256: Text, logicalAxiomsSha256: Text,
    logicalAxiomCount: int)

  datatype OntologyInput = OntologyInput(sha256: Text, ontologyIris: seq<Text>)

  datatype Manifest = Manifest(
    id: Identity,
    directBgpResultSha256: Text, candidateSpaceSha256: Text, executionRootSha256: Text,
    reasonerEngine: Text, reasonerVersion: Text, adapterVersion: Text,
    completionSupportId: Text,
    ontologyInputs: seq<OntologyInput>,
    answerProofs: seq<AnswerProof>)

  const BINDING_DOMAIN: Bytes := "ngkg-direct-proof-binding-v1\0"
  const SUPPORT_DOMAIN: Bytes := "ngkg-direct-reasoner-check-support-v1\0"
  const COMPLETION_DOMAIN: Bytes := "ngkg-direct-completion-support-v1\0"

  // ----- pre-images

  function BindingBytes(row: Row): Bytes {
    BINDING_DOMAIN + RowBytes(row)
  }

  function BindingDigest(sha: Sha256, row: Row): string {
    HexDigest(sha, BindingBytes(row))
  }

  predicate ProofPackable(p: AnswerProof) {
    U64Range(p.candidateOrdinal) && 0 <= p.partitionIndex < U32_LIMIT && U64Range(p.logicalAxiomCount)
  }

  function ProofStrings(p: AnswerProof): seq<Text> {
    [p.requestSha256, p.bindingSha256, p.groundedRdfSha256, p.logicalAxiomsSha256]
  }

  function SupportBytes(lib: Library, id: Identity, p: AnswerProof): Bytes
    requires Readable(lib, id) && ProofPackable(p)
  {
    SUPPORT_DOMAIN + (KeyBytes(lib, id) + (GraphBytes(id.graphContext) + (U64(p.candidateOrdinal)
    + (BigEndian(p.partitionIndex, 4) + (StringsBytes(ProofStrings(p)) + U64(p.logicalAxiomCount))))))
  }

  function SupportDigest(lib: Library, id: Identity, p: AnswerProof): Option<Text> {
    if Readable(lib, id) && ProofPackable(p) then Some(HexDigest(lib.sha, SupportBytes(lib, id, p))) else None
  }

  function CompletionStrings(m: Manifest): seq<Text> {
    [m.id.querySha256, m.id.bgpSha256, m.directBgpResultSha256, m.candidateSpaceSha256,
     m.executionRootSha256, m.reasonerEngine, m.reasonerVersion, m.adapterVersion]
  }

  function CompletionBytes(lib: Library, m: Manifest): Bytes
    requires Readable(lib, m.id)
  {
    COMPLETION_DOMAIN
    + (lib.uuid(m.id.datasetId).value + (lib.uuid(m.id.snapshotId).value + StringsBytes(CompletionStrings(m))))
  }

  function CompletionDigest(lib: Library, m: Manifest): Option<Text> {
    if Readable(lib, m.id) then Some(HexDigest(lib.sha, CompletionBytes(lib, m))) else None
  }

  method BindingSha(sha: Sha256, row: Row) returns (d: string)
    ensures d == BindingDigester(sha)(row)
  {
    var h := new Hasher(BINDING_DOMAIN);
    h.PutRow(row);
    d := HexDigest(sha, h.buffer);
  }

  method SupportId(lib: Library, id: Identity, p: AnswerProof) returns (d: Option<Text>)
    ensures d == SupportDigest(lib, id, p)
  {
    var h := new Hasher(SUPPORT_DOMAIN);
    var ok := PutKey(h, lib, id);
    if !ok { return None; }
    h.PutGraph(id.graphContext);
    ghost var prefix := h.buffer;
    ok := h.PutU64(p.candidateOrdinal);
    if !ok || !(0 <= p.partitionIndex < U32_LIMIT) { return None; }
    h.Update(BigEndian(p.partitionIndex, 4));
    h.PutStrings(ProofStrings(p));
    ok := h.PutU64(p.logicalAxiomCount);
    if !ok { return None; }
    ghost var ordinal, index := U64(p.candidateOrdinal), BigEndian(p.partitionIndex, 4);
    ghost var texts, count := StringsBytes(ProofStrings(p)), U64(p.logicalAxiomCount);
    Append4(prefix, ordinal, index, texts, count);
    Append3(SUPPORT_DOMAIN, KeyBytes(lib, id), GraphBytes(id.graphContext), ordinal + (index + (texts + count)));
    d := Some(HexDigest(lib.sha, h.buffer));
  }

  method CompletionId(lib: Library, m: Manifest) returns (d: Option<Text>)
    ensures d == CompletionDigest(lib, m)
  {
    var h := new Hasher(COMPLETION_DOMAIN);
    var dataset, snapshot := lib.uuid(m.id.datasetId), lib.uuid(m.id.snapshotId);
    if dataset.None? || snapshot.None? { return None; }
    h.Update(dataset.value);
    h.Update(snapshot.value);
    h.PutStrings(CompletionStrings(m));
    Append3(COMPLETION_DOMAIN, dataset.value, snapshot.value, StringsBytes(CompletionStrings(m)));
    d := Some(HexDigest(lib.sha, h.buffer));
  }

  // ----- the checks of `validate`

  predicate OrdinalsIncreasing(proofs: seq<AnswerProof>) {
    forall i, j :: 0 <= i < j < |proofs| ==> proofs[i].candidateOrdinal < proofs[j].candidateOrdinal
  }

  function BindingOf(p: AnswerProof): string { p.bindingSha256 }
  function SupportOf(p: AnswerProof): string { p.supportId }
  function ReferenceOf(ref: SupportReference): string { ref.supportId }

  function MultiplicityOf(s: Solution): int { s.multiplicity }

  function RowDigestOf(digest: Row -> string): Solution -> string {
    (s: Solution) => digest(s.bindings)
  }

  function BindingDigester(sha: Sha256): Row -> string {
    (row: Row) => BindingDigest(sha, row)
  }

  /** Every binding row has its own digest, has as many proofs as its multiplicity, and no
      proof names a row that is not in the result. */
  ghost predicate Covers(digest: Row -> string, rows: seq<Solution>, proofs: seq<AnswerProof>) {
    ExactCover(Map(RowDigestOf(digest), rows), Map(MultiplicityOf, rows), Map(BindingOf, proofs))
  }

  /** The certificate references the completion record and every proof, each exactly once. */
  ghost predicate IdsMatch(m: Manifest, refs: seq<SupportReference>) {
    OnceEach<string>(Map(ReferenceOf, refs), m.completionSupportId, Map(SupportOf, m.answerProofs))
  }

  predicate InputSchemaValid(x: OntologyInput) {
    && ShaPattern(x.sha256) && Distinct(x.ontologyIris)
    && forall i :: 0 <= i < |x.ontologyIris| ==> LengthBetween(x.ontologyIris[i], 3, 8192)
  }

  predicate ProofSchemaValid(p: AnswerProof) {
    && ShaPattern(p.supportId) && (forall i :: 0 <= i < 4 ==> ShaPattern(ProofStrings(p)[i]))
    && p.candidateOrdinal >= 0 && p.partitionIndex >= 0 && p.logicalAxiomCount >= 0
  }

  predicate ManifestSchemaValid(m: Manifest) {
    && IdentitySchemaValid(m.id)
    && ShaPattern(m.directBgpResultSha256) && ShaPattern(m.candidateSpaceSha256)
    && ShaPattern(m.executionRootSha256) && ShaPattern(m.completionSupportId)
    && m.reasonerEngine == "HermiT" && LengthBetween(m.reasonerVersion, 1, 256) && m.adapterVersion == "40.9"
    && |m.ontologyInputs| <= 1_000_000 && |m.answerProofs| <= 1_000_000
    && (forall i :: 0 <= i < |m.ontologyInputs| ==> InputSchemaValid(m.ontologyInputs[i]))
    && (forall i :: 0 <= i < |m.answerProofs| ==> ProofSchemaValid(m.answerProofs[i]))
  }

  ghost predicate Supported(lib: Library, m: Manifest) {
    forall i :: 0 <= i < |m.answerProofs| ==>
      SupportDigest(lib, m.id, m.answerProofs[i]) == Some(m.answerProofs[i].supportId)
  }

  /** The reasoner, the candidate space and the execution are the same in manifest and certificate. */
  predicate SameExecution(m: Manifest, c: Certificate) {
    && m.candidateSpaceSha256 == c.completeness.candidateSpaceSha256
    && m.executionRootSha256 == c.completeness.executionRootSha256
    && m.reasonerEngine == c.reasoner.engine && m.reasonerVersion == c.reasoner.engineVersion
    && m.adapterVersion == c.reasoner.adapterVersion
  }

  /** All three documents describe the same run, and the identifiers recompute. */
  ghost predicate Consistent(lib: Library, m: Manifest, r: Result, c: Certificate, manifestSha: Text) {
    && ManifestSchemaValid(m) && SchemaValid(lib, r) && CertificateSchemaValid(c)
    && CompletionDigest(lib, m) == Some(m.completionSupportId)
    && OrdinalsIncreasing(m.answerProofs)
    && Supported(lib, m)
    && ResultDigest(lib, r) == Some(m.directBgpResultSha256) == Some(c.directBgpResultSha256)
    && c.formatVersion == 2 && c.proofManifestSha256 == Some(manifestSha) && c.proofCoverage.CompleteCoverage?
    && m.id == r.id == c.id
    && SameExecution(m, c)
  }

  ghost predicate ProofAccepted(lib: Library, m: Manifest, r: Result, c: Certificate, manifestSha: Text) {
    && Consistent(lib, m, r, c, manifestSha)
    && Covers(BindingDigester(lib.sha), r.solutions, m.answerProofs)
    && |m.answerProofs| == r.solutionMultiplicityTotal
    && IdsMatch(m, c.supportReferences)
    && BoundToManifest(c.supportReferences, manifestSha)
  }

  /** The loop over `answerProofs` that recomputes every support identifier. */
  method SupportIdsMatch(lib: Library, m: Manifest) returns (ok: bool)
    ensures ok <==> Supported(lib, m)
  {
    var id, proofs := m.id, m.answerProofs;
    for i := 0 to |proofs|
      invariant forall j :: 0 <= j < i ==> SupportDigest(lib, id, proofs[j]) == Some(proofs[j].supportId)
    {
      var d := SupportId(lib, id, proofs[i]);
      if d != Some(proofs[i].supportId) { return false; }
    }
    return true;
  }

  method CheckConsistent(lib: Library, m: Manifest, r: Result, c: Certificate, manifestSha: Text) returns (ok: bool)
    requires |r.variables| < MAX_LENGTH && |r.solutions| < MAX_LENGTH
    ensures ok <==> Consistent(lib, m, r, c, manifestSha)
  {
    if !ManifestSchemaValid(m) || !SchemaValid(lib, r) || !CertificateSchemaValid(c) { return false; }
    var completion := CompletionId(lib, m);
    if completion != Some(m.completionSupportId) { return false; }
    if !OrdinalsIncreasing(m.answerProofs) { return false; }
    ok := SupportIdsMatch(lib, m);
    if !ok { return; }
    var observed := ResultSha256(lib, r);
    if observed != Some(m.directBgpResultSha256) || observed != Some(c.directBgpResultSha256) { return false; }
    if c.formatVersion != 2 || c.proofManifestSha256 != Some(manifestSha) { return false; }
    if !c.proofCoverage.CompleteCoverage? || m.id != r.id || c.id != r.id { return false; }
    ok := SameExecution(m, c);
  }

  method CheckReferences(m: Manifest, refs: seq<SupportReference>) returns (ok: bool)
    ensures ok <==> IdsMatch(m, refs)
  {
    var ids := Map(ReferenceOf, refs);
    var expected: set<string> := {m.completionSupportId} + (set x | x in Map(SupportOf, m.answerProofs));
    var actual := set x | x in ids;
    DistinctBySize(ids);
    ok := expected == actual && |refs| == |actual|;
  }

  /** `[binding_sha(solution["bindings"]) for solution in solutions]` */
  method BindingShas(sha: Sha256, rows: seq<Solution>) returns (names: seq<string>)
    ensures names == Map(RowDigestOf(BindingDigester(sha)), rows)
  {
    names := [];
    for i := 0 to |rows|
      invariant NamedBy(RowDigestOf(BindingDigester(sha)), rows, names, i)
    {
      var name := BindingSha(sha, rows[i].bindings);
      NamedStep(RowDigestOf(BindingDigester(sha)), rows, names, i);
      names := names + [name];
    }
    NamedAll(RowDigestOf(BindingDigester(sha)), rows, names);
  }

  ghost predicate NamedBy(f: Solution -> string, rows: seq<Solution>, names: seq<string>, n: nat) {
    n <= |rows| && names == Map(f, rows[..n])
  }

  lemma {:induction false} NamedStep(f: Solution -> string, rows: seq<Solution>, names: seq<string>, n: nat)
    requires n < |rows| && NamedBy(f, rows, names, n)
    ensures NamedBy(f, rows, names + [f(rows[n])], n + 1)
  {
    assert rows[..n+1] == rows[..n] + [rows[n]];
    MapSnoc(f, rows[..n], rows[n]);
  }

  lemma {:induction false} NamedAll(f: Solution -> string, rows: seq<Solution>, names: seq<string>)
    requires NamedBy(f, rows, names, |rows|)
    ensures names == Map(f, rows)
  {
    assert rows[..|rows|] == rows;
  }

  /** `validate`, returning the manifest digest or raising. */
  method Validate(lib: Library, m: Manifest, r: Result, c: Certificate, manifestBytes: Bytes)
    returns (accepted: Option<Text>)
    requires |r.variables| < MAX_LENGTH && |r.solutions| < MAX_LENGTH
    ensures accepted == if ProofAccepted(lib, m, r, c, HexDigest(lib.sha, manifestBytes))
                        then Some(HexDigest(lib.sha, manifestBytes)) else None
  {
    var manifestSha := HexDigest(lib.sha, manifestBytes);
    var ok := CheckConsistent(lib, m, r, c, manifestSha);
    if !ok { return None; }
    var names := BindingShas(lib.sha, r.solutions);
    ok := Covered(names, Map(MultiplicityOf, r.solutions), Map(BindingOf, m.answerProofs));
    if !ok || |m.answerProofs| != r.solutionMultiplicityTotal { return None; }
    ok := CheckReferences(m, c.supportReferences);
    if !ok || !BoundToManifest(c.supportReferences, manifestSha) { return None; }
    return Some(manifestSha);
  }

  // ----- what acceptance means

  lemma {:induction false} SupportBytesInjective(lib: Library, id: Identity, p: AnswerProof, q: AnswerProof)
    requires Readable(lib, id) && ProofPackable(p) && ProofPackable(q)
    requires SupportBytes(lib, id, p) == SupportBytes(lib, id, q)
    ensures p.(supportId := q.supportId) == q
  {
    var pc, qc := U64(p.logicalAxiomCount), U64(q.logicalAxiomCount);
    var ps, qs := StringsBytes(ProofStrings(p)) + pc, StringsBytes(ProofStrings(q)) + qc;
    var pi, qi := BigEndian(p.partitionIndex, 4), BigEndian(q.partitionIndex, 4);
    var po, qo := U64(p.candidateOrdinal) + (pi + ps), U64(q.candidateOrdinal) + (qi + qs);
    var pg, qg := GraphBytes(id.graphContext) + po, GraphBytes(id.graphContext) + qo;
    Cut(SUPPORT_DOMAIN, SUPPORT_DOMAIN, KeyBytes(lib, id) + pg, KeyBytes(lib, id) + qg);
    Cut(KeyBytes(lib, id), KeyBytes(lib, id), pg, qg);
    Cut(GraphBytes(id.graphContext), GraphBytes(id.graphContext), po, qo);
    U64Cut(p.candidateOrdinal, q.candidateOrdinal, pi + ps, qi + qs);
    Cut(pi, qi, ps, qs);
    Widths();
    BigEndianInjective(p.partitionIndex, q.partitionIndex, 4);
    StringsCut(ProofStrings(p), ProofStrings(q), pc, qc);
    ProofStringsInjective(p, q);
    assert pc + [] == qc + [];
    U64Cut(p.logicalAxiomCount, q.logicalAxiomCount, [], []);
  }

  lemma {:induction false} ProofStringsInjective(p: AnswerProof, q: AnswerProof)
    requires ProofStrings(p) == ProofStrings(q)
    ensures p.requestSha256 == q.requestSha256 && p.bindingSha256 == q.bindingSha256
    ensures p.groundedRdfSha256 == q.groundedRdfSha256 && p.logicalAxiomsSha256 == q.logicalAxiomsSha256
  {
    var s, t := ProofStrings(p), ProofStrings(q);
    assert s[0] == t[0] && s[1] == t[1] && s[2] == t[2] && s[3] == t[3];
  }

  /** No reasoner-check pre-image is ever a completion pre-image. */
  lemma {:induction false} DomainsSeparate(lib: Library, m: Manifest, id: Identity, p: AnswerProof)
    requires Readable(lib, m.id) && Readable(lib, id) && ProofPackable(p)
    ensures SupportBytes(lib, id, p) != CompletionBytes(lib, m)
  {
    assert SupportBytes(lib, id, p)[12] == SUPPORT_DOMAIN[12] == 'r';
    assert CompletionBytes(lib, m)[12] == COMPLETION_DOMAIN[12] == 'c';
  }

  ghost function SupportPreimages(lib: Library, m: Manifest): set<Bytes> {
    if Readable(lib, m.id)
    then {CompletionBytes(lib, m)} + set p | p in m.answerProofs && ProofPackable(p) :: SupportBytes(lib, m.id, p)
    else {}
  }

  lemma {:induction false} SupportIdsDistinct(lib: Library, m: Manifest)
    requires Supported(lib, m) && OrdinalsIncreasing(m.answerProofs)
    requires CompletionDigest(lib, m) == Some(m.completionSupportId)
    requires CollisionFree(lib.sha, SupportPreimages(lib, m))
    ensures Distinct(Map(SupportOf, m.answerProofs))
    ensures m.completionSupportId !in Map(SupportOf, m.answerProofs)
  {
    var proofs, inputs := m.answerProofs, SupportPreimages(lib, m);
    forall i, j | 0 <= i < j < |proofs| ensures proofs[i].supportId != proofs[j].supportId {
      DifferentProofs(lib, m, inputs, i, j);
    }
    forall i | 0 <= i < |proofs| ensures proofs[i].supportId != m.completionSupportId {
      CompletionDiffers(lib, m, inputs, i);
    }
  }

  lemma {:induction false} DifferentProofs(lib: Library, m: Manifest, inputs: set<Bytes>, i: nat, j: nat)
    requires Supported(lib, m) && OrdinalsIncreasing(m.answerProofs)
    requires i < j < |m.answerProofs|
    requires inputs == SupportPreimages(lib, m) && CollisionFree(lib.sha, inputs)
    ensures m.answerProofs[i].supportId != m.answerProofs[j].supportId
  {
    var p, q := m.answerProofs[i], m.answerProofs[j];
    if p.supportId == q.supportId {
      HexDigestCollisionFree(lib.sha, inputs, SupportBytes(lib, m.id, p), SupportBytes(lib, m.id, q));
      SupportBytesInjective(lib, m.id, p, q);
    }
  }

  lemma {:induction false} CompletionDiffers(lib: Library, m: Manifest, inputs: set<Bytes>, i: nat)
    requires Supported(lib, m) && i < |m.answerProofs|
    requires CompletionDigest(lib, m) == Some(m.completionSupportId)
    requires inputs == SupportPreimages(lib, m) && CollisionFree(lib.sha, inputs)
    ensures m.answerProofs[i].supportId != m.completionSupportId
  {
    var p := m.answerProofs[i];
    DomainsSeparate(lib, m, m.id, p);
    if p.supportId == m.completionSupportId {
      HexDigestCollisionFree(lib.sha, inputs, SupportBytes(lib, m.id, p), CompletionBytes(lib, m));
    }
  }

  /** An accepted bundle covers the solution bag exactly: each row has one proof per unit of
      multiplicity, no proof is left over, the multiplicities add up to the declared total,
      and no binding row is listed twice. */
  lemma {:induction false} AcceptedProofsCoverTheBag(
      lib: Library, m: Manifest, r: Result, c: Certificate, manifestSha: Text)
    requires ProofAccepted(lib, m, r, c, manifestSha)
    ensures forall i :: 0 <= i < |r.solutions| ==>
      multiset(Map(BindingOf, m.answerProofs))[BindingDigest(lib.sha, r.solutions[i].bindings)]
        == r.solutions[i].multiplicity
    ensures forall i, j :: 0 <= i < j < |r.solutions| ==> r.solutions[i].bindings != r.solutions[j].bindings
    ensures Sum(Map(MultiplicityOf, r.solutions)) == |m.answerProofs| == r.solutionMultiplicityTotal
  {
    CoverFacts(BindingDigester(lib.sha), r.solutions, m.answerProofs);
  }

  lemma {:induction false} CoverFacts(digest: Row -> string, rows: seq<Solution>, proofs: seq<AnswerProof>)
    requires Covers(digest, rows, proofs)
    ensures forall i :: 0 <= i < |rows| ==>
      multiset(Map(BindingOf, proofs))[digest(rows[i].bindings)] == rows[i].multiplicity
    ensures forall i, j :: 0 <= i < j < |rows| ==> rows[i].bindings != rows[j].bindings
    ensures Sum(Map(MultiplicityOf, rows)) == |proofs|
  {
    var keys, counts, names := Map(RowDigestOf(digest), rows), Map(MultiplicityOf, rows), Map(BindingOf, proofs);
    CoverTotal(keys, counts, names);
    forall i | 0 <= i < |rows|
      ensures multiset(Map(BindingOf, proofs))[digest(rows[i].bindings)] == rows[i].multiplicity
    {
      assert keys[i] == RowDigestOf(digest)(rows[i]);
      assert multiset(names)[keys[i]] == counts[i];
    }
    forall i, j | 0 <= i < j < |rows| ensures rows[i].bindings != rows[j].bindings {
      assert keys[i] == RowDigestOf(digest)(rows[i]) && keys[j] == RowDigestOf(digest)(rows[j]);
      assert keys[i] != keys[j];
    }
  }

  /** The certificate of an accepted bundle carries one support reference per unit of
      multiplicity plus the completion barrier, all different. */
  lemma {:induction false} AcceptedReferencesAreExact(
      lib: Library, m: Manifest, r: Result, c: Certificate, manifestSha: Text)
    requires ProofAccepted(lib, m, r, c, manifestSha)
    requires CollisionFree(lib.sha, SupportPreimages(lib, m))
    ensures |c.supportReferences| == r.solutionMultiplicityTotal + 1
    ensures Distinct(Map(ReferenceOf, c.supportReferences))
    ensures multiset(Map(ReferenceOf, c.supportReferences))
      == multiset(Map(SupportOf, m.answerProofs) + [m.completionSupportId])
  {
    SupportIdsDistinct(lib, m);
    OnceEachBag<string>(Map(ReferenceOf, c.supportReferences), m.completionSupportId, Map(SupportOf, m.answerProofs));
  }
}
