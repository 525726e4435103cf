/** The Direct-BGP result, its canonical SHA-256 pre-image and its semantic validator. */
module DirectResult {
  import opened Options
  import opened Orders
  import opened Sorting
  import opened Sequences
  import opened DirectEncoding
  import opened DirectSpelling

  /** What every Direct artifact is bound to. */
  datatype Identity = Identity(
    datasetId: Text, snapshotId: Text,
    querySha256: Text, bgpSha256: Text, activeDatasetSha256: Text,
    authorizedGraphSetSha256: Text, owlSignatureSha256: Text, datatypePolicySha256: Text,
    graphContext: Graph)

  datatype Solution = Solution(bindings: Row, multiplicity: int)

  datatype Status = CompleteStatus | FailedStatus
  datatype Exactness = Exact | ExactnessNotEstablished
  datatype Completeness = Complete | Incomplete | CompletenessNotEstablished
  datatype Outcome = Outcome(status: Status, exactness: Exactness, completeness: Completeness)

  datatype FailureCode =
    | IllegalBgp | InconsistentOntology | UnsupportedDatatype | ResourceExhausted
    | Timeout | ReasonerFailure | IntegrityFailure | NotCovered
  datatype Failure = Failure(code: FailureCode, retryable: bool, detail: Text)

  datatype Result = Result(
    formatVersion: int,
    id: Identity,
    variables: seq<Text>,
    candidateBindingCount: int,
    solutionMultiplicityTotal: int,
    solutions: seq<Solution>,
    outcome: Outcome,
    error: Option<Failure>)

  const RESULT_DOMAIN: Bytes := "ngkg-direct-bgp-result-v1\0"
  const SOLUTION_DOMAIN: Bytes := "ngkg-direct-bgp-solution-v1\0"

  // ----- the result schema

  predicate GraphSchemaValid(g: Graph) {
    match g
    case DefaultGraph(sha) => ShaPattern(sha)
    case NamedGraph(iri) => LengthBetween(iri, 3, 8192)
  }

  /** The digests and the graph; `format: uuid` is only an annotation, so any text passes as an identifier. */
  predicate IdentitySchemaValid(id: Identity) {
    (forall i :: 0 <= i < 6 ==> ShaPattern(KeyStrings(id)[i])) && GraphSchemaValid(id.graphContext)
  }

  predicate TermSchemaValid(lib: Library, t: Term) {
    match t
    case Iri(value) => LengthBetween(value, 3, 8192)
    case BlankNode(value) => LengthBetween(value, 1, 1024) && NonSpacePattern(lib, value)
    case Literal(lexicalForm, datatypeIri, language) =>
      && LengthBetween(lexicalForm, 0, 1048576) && LengthBetween(datatypeIri, 3, 8192)
      && (language.Some? ==> LengthBetween(language.value, 1, 63) && NonSpacePattern(lib, language.value))
  }

  predicate SolutionSchemaValid(lib: Library, s: Solution) {
    && s.multiplicity >= 1
    && forall k :: k in s.bindings ==> LengthBetween(k, 1, 1024) && TermSchemaValid(lib, s.bindings[k])
  }

  /** What a status allows. */
  predicate OutcomeSchemaValid(r: Result) {
    && (r.outcome.status.CompleteStatus? ==>
          r.outcome == Outcome(CompleteStatus, Exact, Complete) && r.error.None?)
    && (r.outcome.status.FailedStatus? ==>
          && r.error.Some? && r.outcome.exactness.ExactnessNotEstablished? && !r.outcome.completeness.Complete?
          && r.solutionMultiplicityTotal == 0 && r.solutions == [])
    && (r.error.Some? ==> LengthBetween(r.error.value.detail, 1, 4096))
  }

  predicate SchemaValid(lib: Library, r: Result) {
    && r.formatVersion == 1
    && IdentitySchemaValid(r.id)
    && Distinct(r.variables) && (forall v :: v in r.variables ==> LengthBetween(v, 1, 1024))
    && r.candidateBindingCount >= 0 && r.solutionMultiplicityTotal >= 0
    && (forall s :: s in r.solutions ==> SolutionSchemaValid(lib, s))
    && OutcomeSchemaValid(r)
  }

  predicate U64Range(n: int) {
    0 <= n < U64_LIMIT
  }

  predicate Packable(rows: seq<Solution>) {
    forall s :: s in rows ==> U64Range(s.multiplicity)
  }

  /** `uuid.UUID` reads both identifiers. */
  predicate Readable(lib: Library, id: Identity) {
    lib.uuid(id.datasetId).Some? && lib.uuid(id.snapshotId).Some?
  }

  /** No `struct.pack` and no `uuid.UUID` in the digest raises. */
  predicate Encodable(lib: Library, r: Result) {
    && 0 <= r.formatVersion < U32_LIMIT
    && Readable(lib, r.id)
    && Countable(r)
  }

  /** Every count fits its field. */
  predicate Countable(r: Result) {
    && |r.variables| < MAX_LENGTH && |r.solutions| < MAX_LENGTH
    && U64Range(r.candidateBindingCount) && U64Range(r.solutionMultiplicityTotal)
    && Packable(r.solutions)
  }

  // ----- specification of the pre-image

  function KeyStrings(id: Identity): seq<Text> {
    [id.querySha256, id.bgpSha256, id.activeDatasetSha256,
     id.authorizedGraphSetSha256, id.owlSignatureSha256, id.datatypePolicySha256]
  }

  function KeyBytes(lib: Library, id: Identity): Bytes
    requires Readable(lib, id)
  {
    lib.uuid(id.datasetId).value + (lib.uuid(id.snapshotId).value + StringsBytes(KeyStrings(id)))
  }

  function SolutionBytes(s: Solution): Bytes
    requires U64Range(s.multiplicity)
  {
    SOLUTION_DOMAIN + (RowBytes(s.bindings) + U64(s.multiplicity))
  }

  function RowDigest(sha: Sha256, s: Solution): Digest {
    sha(if U64Range(s.multiplicity) then SolutionBytes(s) else [])
  }

  function RowDigester(sha: Sha256): Solution -> Digest {
    (s: Solution) => RowDigest(sha, s)
  }

  function RowDigests(sha: Sha256, rows: seq<Solution>): (ds: seq<Digest>)
    ensures |ds| == |rows|
  {
    Map(RowDigester(sha), rows)
  }

  predicate DigestLe(a: Digest, b: Digest) {
    Le(a, b)
  }

  lemma {:induction false} DigestOrder()
    ensures TotalPreorder(DigestLe)
    ensures forall a, b :: DigestLe(a, b) && DigestLe(b, a) ==> a == b
  {
    LeIsTotalOrder();
  }

  function SortedDigests(sha: Sha256, rows: seq<Solution>): (ds: seq<Digest>)
    ensures |ds| == |rows|
  {
    DigestOrder();
    var ds := SortBy(RowDigests(sha, rows), DigestLe);
    SameMembers(ds, RowDigests(sha, rows));
    ds
  }

  function Joined(parts: seq<Digest>): Bytes {
    if parts == [] then [] else parts[0] + Joined(parts[1..])
  }

  function StatusTag(s: Status): char {
    match s case CompleteStatus => 1 as char case FailedStatus => 2 as char
  }

  function ExactnessTag(e: Exactness): char {
    match e case Exact => 1 as char case ExactnessNotEstablished => 2 as char
  }

  function CompletenessTag(c: Completeness): char {
    match c
    case Complete => 1 as char
    case Incomplete => 2 as char
    case CompletenessNotEstablished => 3 as char
  }

  function FailureTag(c: FailureCode): char {
    match c
    case IllegalBgp => 1 as char
    case InconsistentOntology => 2 as char
    case UnsupportedDatatype => 3 as char
    case ResourceExhausted => 4 as char
    case Timeout => 5 as char
    case ReasonerFailure => 6 as char
    case IntegrityFailure => 7 as char
    case NotCovered => 8 as char
  }

  function OutcomeTags(o: Outcome): (b: Bytes)
    ensures |b| == 3
  {
    [StatusTag(o.status), ExactnessTag(o.exactness), CompletenessTag(o.completeness)]
  }

  function ErrorBytes(e: Option<Failure>): Bytes {
    match e
    case None => [0 as char]
    case Some(f) =>
      [1 as char, FailureTag(f.code), if f.retryable then 1 as char else 0 as char] + StringBytes(f.detail)
  }

  function RowsBytes(sha: Sha256, r: Result): Bytes
    requires |r.solutions| < MAX_LENGTH
  {
    U64(|r.solutions|) + (Joined(SortedDigests(sha, r.solutions)) + (OutcomeTags(r.outcome) + ErrorBytes(r.error)))
  }

  /** Everything after the graph context. */
  function TableBytes(sha: Sha256, r: Result): Bytes
    requires Countable(r)
  {
    U64(|r.variables|) + (StringsBytes(r.variables)
    + (U64(r.candidateBindingCount) + (U64(r.solutionMultiplicityTotal)
    + RowsBytes(sha, r))))
  }

  function ResultBytes(lib: Library, r: Result): Bytes
    requires Encodable(lib, r)
  {
    RESULT_DOMAIN + (BigEndian(r.formatVersion, 4)
    + (KeyBytes(lib, r.id) + ([1 as char] + (GraphBytes(r.id.graphContext) + TableBytes(lib.sha, r)))))
  }

  // ----- the scripts' own steps, over a hasher

  method SolutionDigest(sha: Sha256, s: Solution) returns (d: Option<Digest>)
    ensures d == RowOutcome(sha)(s)
  {
    var h := new Hasher(SOLUTION_DOMAIN);
    h.PutRow(s.bindings);
    var ok := h.PutU64(s.multiplicity);
    if !ok { return None; }
    Associate(SOLUTION_DOMAIN, RowBytes(s.bindings), U64(s.multiplicity));
    return Some(sha(h.buffer));
  }

  method PutKey(h: Hasher, lib: Library, id: Identity) returns (ok: bool)
    modifies h
    ensures ok <==> Readable(lib, id)
    ensures ok ==> h.buffer == old(h.buffer) + KeyBytes(lib, id)
  {
    var dataset, snapshot := lib.uuid(id.datasetId), lib.uuid(id.snapshotId);
    if dataset.None? || snapshot.None? { return false; }
    h.Update(dataset.value);
    h.Update(snapshot.value);
    h.PutStrings(KeyStrings(id));
    Append3(old(h.buffer), dataset.value, snapshot.value, StringsBytes(KeyStrings(id)));
    ok := true;
  }

  method PutDigests(h: Hasher, parts: seq<Digest>)
    modifies h
    ensures h.buffer == old(h.buffer) + Joined(parts)
  {
    assert parts[0..] == parts;
    for i := 0 to |parts|
      invariant h.buffer + Joined(parts[i..]) == old(h.buffer) + Joined(parts)
    {
      ghost var before := h.buffer;
      assert parts[i..][1..] == parts[i+1..];
      h.Update(parts[i]);
      Associate(before, parts[i], Joined(parts[i+1..]));
    }
  }

  method PutOutcome(h: Hasher, r: Result)
    modifies h
    ensures h.buffer == old(h.buffer) + (OutcomeTags(r.outcome) + ErrorBytes(r.error))
  {
    h.Update([StatusTag(r.outcome.status)]);
    h.Update([ExactnessTag(r.outcome.exactness)]);
    h.Update([CompletenessTag(r.outcome.completeness)]);
    assert h.buffer == old(h.buffer) + OutcomeTags(r.outcome);
    ghost var before := h.buffer;
    match r.error {
      case None =>
        h.Update([0 as char]);
      case Some(f) =>
        h.Update([1 as char]);
        h.Update([FailureTag(f.code)]);
        h.Update([if f.retryable then 1 as char else 0 as char]);
        ghost var tags := [1 as char, FailureTag(f.code), if f.retryable then 1 as char else 0 as char];
        assert h.buffer == before + tags;
        h.PutString(f.detail);
        Associate(before, tags, StringBytes(f.detail));
    }
    Associate(old(h.buffer), OutcomeTags(r.outcome), ErrorBytes(r.error));
  }

  function RowOutcome(sha: Sha256): Solution -> Option<Digest> {
    (s: Solution) => if U64Range(s.multiplicity) then Some(RowDigest(sha, s)) else None
  }

  lemma {:induction false} RowOutcomes(sha: Sha256, rows: seq<Solution>)
    ensures Traverse(RowOutcome(sha), rows) == if Packable(rows) then Some(RowDigests(sha, rows)) else None
  {
    var all := Traverse(RowOutcome(sha), rows);
    if Packable(rows) {
      forall i | 0 <= i < |rows| ensures RowOutcome(sha)(rows[i]) == Some(RowDigests(sha, rows)[i]) {
        assert rows[i] in rows;
        assert RowDigests(sha, rows)[i] == RowDigester(sha)(rows[i]);
      }
      assert all.value == RowDigests(sha, rows);
    } else {
      var s :| s in rows && !U64Range(s.multiplicity);
      var i :| 0 <= i < |rows| && rows[i] == s;
      assert RowOutcome(sha)(rows[i]).None?;
    }
  }

  /** `[solution_digest(row) for row in solutions]`, or none if a multiplicity does not fit. */
  method DigestRows(sha: Sha256, rows: seq<Solution>) returns (digests: Option<seq<Digest>>)
    ensures digests == Traverse(RowOutcome(sha), rows)
  {
    var found: seq<Digest> := [];
    assert rows[..0] == [];
    for i := 0 to |rows|
      invariant Traverse(RowOutcome(sha), rows[..i]) == Some(found)
    {
      var d := SolutionDigest(sha, rows[i]);
      TraverseStep(RowOutcome(sha), rows, i, found);
      if d.None? { return None; }
      found := found + [d.value];
    }
    assert rows[..|rows|] == rows;
    return Some(found);
  }

  method PutRows(h: Hasher, sha: Sha256, r: Result) returns (ok: bool)
    requires |r.solutions| < MAX_LENGTH
    modifies h
    ensures ok <==> Packable(r.solutions)
    ensures ok ==> h.buffer == old(h.buffer) + RowsBytes(sha, r)
  {
    var digests := DigestRows(sha, r.solutions);
    RowOutcomes(sha, r.solutions);
    if digests.None? { return false; }
    DigestOrder();
    var sorted := SortBy(digests.value, DigestLe);
    assert sorted == SortedDigests(sha, r.solutions);
    ok := h.PutU64(|sorted|);
    PutDigests(h, sorted);
    PutOutcome(h, r);
    Append3(old(h.buffer), U64(|sorted|), Joined(sorted), OutcomeTags(r.outcome) + ErrorBytes(r.error));
  }

  method PutTable(h: Hasher, sha: Sha256, r: Result) returns (ok: bool)
    requires |r.variables| < MAX_LENGTH && |r.solutions| < MAX_LENGTH
    modifies h
    ensures ok <==> Countable(r)
    ensures ok ==> h.buffer == old(h.buffer) + TableBytes(sha, r)
  {
    ok := h.PutU64(|r.variables|);
    h.PutStrings(r.variables);
    Associate(old(h.buffer), U64(|r.variables|), StringsBytes(r.variables));
    ghost var middle := h.buffer;
    ok := h.PutU64(r.candidateBindingCount);
    if !ok { return; }
    ok := h.PutU64(r.solutionMultiplicityTotal);
    if !ok { return; }
    ok := PutRows(h, sha, r);
    if !ok { return; }
    ghost var rows := RowsBytes(sha, r);
    Append3(middle, U64(r.candidateBindingCount), U64(r.solutionMultiplicityTotal), rows);
    Append3(old(h.buffer), U64(|r.variables|), StringsBytes(r.variables),
            U64(r.candidateBindingCount) + (U64(r.solutionMultiplicityTotal) + rows));
  }

  /** `result_sha256`: raises on a schema violation, on an identifier `uuid.UUID` cannot read, and on
      a count no `>Q` can hold. */
  method ResultSha256(lib: Library, r: Result) returns (digest: Option<Text>)
    requires |r.variables| < MAX_LENGTH && |r.solutions| < MAX_LENGTH
    ensures digest == ResultDigest(lib, r)
  {
    if !SchemaValid(lib, r) { return None; }
    var h := new Hasher(RESULT_DOMAIN);
    h.Update(BigEndian(r.formatVersion, 4));
    var ok := PutKey(h, lib, r.id);
    if !ok { return None; }
    Associate(RESULT_DOMAIN, BigEndian(r.formatVersion, 4), KeyBytes(lib, r.id));
    h.Update([1 as char]);
    h.PutGraph(r.id.graphContext);
    ok := PutTable(h, lib.sha, r);
    if !ok { return None; }
    ghost var prefix := RESULT_DOMAIN + BigEndian(r.formatVersion, 4);
    Append4(prefix, KeyBytes(lib, r.id), [1 as char], GraphBytes(r.id.graphContext), TableBytes(lib.sha, r));
    Associate(RESULT_DOMAIN, BigEndian(r.formatVersion, 4),
            KeyBytes(lib, r.id) + ([1 as char] + (GraphBytes(r.id.graphContext) + TableBytes(lib.sha, r))));
    return Some(HexDigest(lib.sha, h.buffer));
  }

  function ResultDigest(lib: Library, r: Result): Option<Text> {
    if SchemaValid(lib, r) && Encodable(lib, r) then Some(HexDigest(lib.sha, ResultBytes(lib, r))) else None
  }
}
