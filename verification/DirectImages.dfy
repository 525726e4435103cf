/** What stands in each hashed pre-image of the Direct documents, read field after field, and so which
    fields two equal identifiers share. */
module DirectImages {
  import opened Options
  import opened Orders
  import opened Sorting
  import opened Sequences
  import opened DirectEncoding
  import opened DirectSpelling
  import opened DirectDecoding
  import opened DirectResult
  import opened DirectProof

  // ----- readers

  datatype Key = Key(
    dataset: Bytes, snapshot: Bytes, query: Text, bgp: Text, activeDataset: Text, authorizedGraphs: Text,
    owlSignature: Text, datatypePolicy: Text)

  /** Two UUIDs of sixteen bytes, then six texts. */
  function ReadKey(b: Bytes): Reading<Key> {
    var dataset :- ReadBytes(b, 16);
    var snapshot :- ReadBytes(dataset.1, 16);
    var t :- ReadTexts(snapshot.1, 6);
    Reading(Key(dataset.0, snapshot.0, t.0[0], t.0[1], t.0[2], t.0[3], t.0[4], t.0[5]), t.1)
  }

  datatype SupportImage = SupportImage(
    key: Key, graph: Graph, candidateOrdinal: nat, partitionIndex: nat,
    request: Text, binding: Text, groundedRdf: Text, logicalAxioms: Text, logicalAxiomCount: nat)

  function ReadProofPart(b: Bytes, key: Key, graph: Graph): Reading<SupportImage> {
    var ordinal :- ReadNumber(b, 8);
    var index :- ReadNumber(ordinal.1, 4);
    var t :- ReadTexts(index.1, 4);
    var count :- ReadNumber(t.1, 8);
    Reading(SupportImage(key, graph, ordinal.0, index.0, t.0[0], t.0[1], t.0[2], t.0[3], count.0), count.1)
  }

  function ReadSupport(b: Bytes): Reading<SupportImage> {
    var domain :- ReadDomain(b, "ngkg-direct-reasoner-check-support-v1\0");
    var key :- ReadKey(domain.1);
    var graph :- ReadGraph(key.1);
    ReadProofPart(graph.1, key.0, graph.0)
  }

  datatype CompletionImage = CompletionImage(
    dataset: Bytes, snapshot: Bytes, query: Text, bgp: Text, result: Text, candidateSpace: Text,
    executionRoot: Text, engine: Text, engineVersion: Text, adapterVersion: Text)

  function ReadCompletion(b: Bytes): Reading<CompletionImage> {
    var domain :- ReadDomain(b, "ngkg-direct-completion-support-v1\0");
    var dataset :- ReadBytes(domain.1, 16);
    var snapshot :- ReadBytes(dataset.1, 16);
    var t :- ReadTexts(snapshot.1, 8);
    Reading(CompletionImage(dataset.0, snapshot.0, t.0[0], t.0[1], t.0[2], t.0[3], t.0[4], t.0[5], t.0[6], t.0[7]), t.1)
  }

  datatype SolutionImage = SolutionImage(bindings: seq<Binding>, multiplicity: nat)

  function ReadSolution(b: Bytes): Reading<SolutionImage> {
    var domain :- ReadDomain(b, "ngkg-direct-bgp-solution-v1\0");
    var row :- ReadRow(domain.1);
    var multiplicity :- ReadNumber(row.1, 8);
    Reading(SolutionImage(row.0, multiplicity.0), multiplicity.1)
  }

  function ReadBindingRow(b: Bytes): Reading<seq<Binding>> {
    var domain :- ReadDomain(b, "ngkg-direct-proof-binding-v1\0");
    ReadRow(domain.1)
  }

  function ReadDigests(b: Bytes, n: nat): Reading<seq<Bytes>>
    decreases n
  {
    if n == 0 then Reading([], b) else
      var head :- ReadBytes(b, 32);
      Prepend(head.0, ReadDigests(head.1, n - 1))
  }

  function ReadOutcome(b: Bytes): Reading<Outcome> {
    var status :- ReadNumber(b, 1);
    var exactness :- ReadNumber(status.1, 1);
    var completeness :- ReadNumber(exactness.1, 1);
    if 1 <= status.0 <= 2 && 1 <= exactness.0 <= 2 && 1 <= completeness.0 <= 3
    then Reading(
           Outcome([CompleteStatus, FailedStatus][status.0 - 1], [Exact, ExactnessNotEstablished][exactness.0 - 1],
                   [Complete, Incomplete, CompletenessNotEstablished][completeness.0 - 1]), completeness.1)
    else Stuck
  }

  const CODES: seq<FailureCode> := [
    IllegalBgp, InconsistentOntology, UnsupportedDatatype, ResourceExhausted,
    Timeout, ReasonerFailure, IntegrityFailure, NotCovered]

  function ReadError(b: Bytes): Reading<Option<Failure>> {
    var present :- ReadNumber(b, 1);
    if present.0 == 0 then Reading(None, present.1) else
      var code :- ReadNumber(present.1, 1);
      var retryable :- ReadNumber(code.1, 1);
      var detail :- ReadText(retryable.1);
      if present.0 == 1 && 1 <= code.0 <= 8 && retryable.0 <= 1
      then Reading(Some(Failure(CODES[code.0 - 1], retryable.0 == 1, detail.0)), detail.1)
      else Stuck
  }

  datatype Table = Table(
    variables: seq<Text>, candidateBindingCount: nat, solutionMultiplicityTotal: nat, digests: seq<Bytes>)

  function ReadTable(b: Bytes): Reading<Table> {
    var width :- ReadNumber(b, 8);
    var variables :- ReadTexts(width.1, width.0);
    var candidates :- ReadNumber(variables.1, 8);
    var total :- ReadNumber(candidates.1, 8);
    var height :- ReadNumber(total.1, 8);
    var digests :- ReadDigests(height.1, height.0);
    Reading(Table(variables.0, candidates.0, total.0, digests.0), digests.1)
  }

  datatype ResultImage = ResultImage(
    formatVersion: nat, key: Key, graph: Graph, table: Table, outcome: Outcome, error: Option<Failure>)

  function ReadBody(b: Bytes, version: nat, key: Key, graph: Graph): Reading<ResultImage> {
    var table :- ReadTable(b);
    var outcome :- ReadOutcome(table.1);
    var error :- ReadError(outcome.1);
    Reading(ResultImage(version, key, graph, table.0, outcome.0, error.0), error.1)
  }

  function ReadResult(b: Bytes): Reading<ResultImage> {
    var domain :- ReadDomain(b, "ngkg-direct-bgp-result-v1\0");
    var version :- ReadNumber(domain.1, 4);
    var key :- ReadKey(version.1);
    var one :- ReadDomain(key.1, [1 as char]);
    var graph :- ReadGraph(one.1);
    ReadBody(graph.1, version.0, key.0, graph.0)
  }

  // ----- every pre-image reads back

  function KeyOf(lib: Library, id: Identity): Key
    requires Readable(lib, id)
  {
    Key(lib.uuid(id.datasetId).value, lib.uuid(id.snapshotId).value,
        id.querySha256, id.bgpSha256, id.activeDatasetSha256,
        id.authorizedGraphSetSha256, id.owlSignatureSha256, id.datatypePolicySha256)
  }

  lemma {:induction false} KeyReads(lib: Library, id: Identity, x: Bytes)
    requires Readable(lib, id)
    ensures ReadKey(KeyBytes(lib, id) + x) == Reading(KeyOf(lib, id), x)
  {
    var dataset, snapshot, texts := lib.uuid(id.datasetId).value, lib.uuid(id.snapshotId).value, KeyStrings(id);
    Append2Tail(dataset, snapshot, StringsBytes(texts), x);
    FrontAndRest(dataset, snapshot + (StringsBytes(texts) + x));
    FrontAndRest(snapshot, StringsBytes(texts) + x);
    TextsRead(texts, x);
  }

  lemma {:induction false} ProofPartReads(key: Key, graph: Graph, p: AnswerProof)
    requires ProofPackable(p)
    ensures var bytes := U64(p.candidateOrdinal)
        + (BigEndian(p.partitionIndex, 4) + (StringsBytes(ProofStrings(p)) + U64(p.logicalAxiomCount)));
      ReadProofPart(bytes, key, graph) == Reading(
        SupportImage(key, graph, p.candidateOrdinal, p.partitionIndex, p.requestSha256, p.bindingSha256,
                     p.groundedRdfSha256, p.logicalAxiomsSha256, p.logicalAxiomCount), [])
  {
    var count, texts := U64(p.logicalAxiomCount), StringsBytes(ProofStrings(p)) + U64(p.logicalAxiomCount);
    U64Reads(p.candidateOrdinal, BigEndian(p.partitionIndex, 4) + texts);
    Widths();
    NumberReads(p.partitionIndex, 4, texts);
    TextsRead(ProofStrings(p), count);
    U64Reads(p.logicalAxiomCount, []);
    assert count + [] == count;
  }

  /** The support pre-image holds, in this order, the identity, the graph and the fields of the proof. */
  lemma {:induction false} SupportReads(lib: Library, id: Identity, p: AnswerProof)
    requires Readable(lib, id) && ProofPackable(p)
    ensures ReadSupport(SupportBytes(lib, id, p)) == Reading(
      SupportImage(KeyOf(lib, id), id.graphContext, p.candidateOrdinal, p.partitionIndex, p.requestSha256,
                   p.bindingSha256, p.groundedRdfSha256, p.logicalAxiomsSha256, p.logicalAxiomCount), [])
  {
    var tail := U64(p.candidateOrdinal)
      + (BigEndian(p.partitionIndex, 4) + (StringsBytes(ProofStrings(p)) + U64(p.logicalAxiomCount)));
    DomainReads("ngkg-direct-reasoner-check-support-v1\0", KeyBytes(lib, id) + (GraphBytes(id.graphContext) + tail));
    KeyReads(lib, id, GraphBytes(id.graphContext) + tail);
    GraphReads(id.graphContext, tail);
    ProofPartReads(KeyOf(lib, id), id.graphContext, p);
  }

  /** The completion pre-image holds the two UUIDs and these eight texts, in this order. */
  lemma {:induction false} CompletionReads(lib: Library, m: Manifest)
    requires Readable(lib, m.id)
    ensures ReadCompletion(CompletionBytes(lib, m)) == Reading(
      CompletionImage(
        lib.uuid(m.id.datasetId).value, lib.uuid(m.id.snapshotId).value, m.id.querySha256, m.id.bgpSha256,
        m.directBgpResultSha256, m.candidateSpaceSha256, m.executionRootSha256,
        m.reasonerEngine, m.reasonerVersion, m.adapterVersion), [])
  {
    var dataset, snapshot := lib.uuid(m.id.datasetId).value, lib.uuid(m.id.snapshotId).value;
    var texts := StringsBytes(CompletionStrings(m));
    DomainReads("ngkg-direct-completion-support-v1\0", dataset + (snapshot + texts));
    FrontAndRest(dataset, snapshot + texts);
    FrontAndRest(snapshot, texts);
    assert texts + [] == texts;
    TextsRead(CompletionStrings(m), []);
  }

  /** The pre-image of a row digest holds the bindings in name order and the multiplicity. */
  lemma {:induction false} SolutionReads(s: Solution) returns (bindings: seq<Binding>)
    requires U64Range(s.multiplicity)
    ensures ReadSolution(SolutionBytes(s)) == Reading(SolutionImage(bindings, s.multiplicity), [])
    ensures ListsRow(bindings, s.bindings)
  {
    DomainReads("ngkg-direct-bgp-solution-v1\0", RowBytes(s.bindings) + U64(s.multiplicity));
    bindings := RowReads(s.bindings, U64(s.multiplicity));
    assert U64(s.multiplicity) + [] == U64(s.multiplicity);
    U64Reads(s.multiplicity, []);
  }

  /** The pre-image of a binding digest holds the bindings in name order and nothing else. */
  lemma {:induction false} BindingReads(row: Row) returns (bindings: seq<Binding>)
    ensures ReadBindingRow(BindingBytes(row)) == Reading(bindings, []) && ListsRow(bindings, row)
  {
    DomainReads("ngkg-direct-proof-binding-v1\0", RowBytes(row));
    bindings := RowReads(row, []);
    assert RowBytes(row) + [] == RowBytes(row);
  }

  lemma {:induction false} DigestsRead(digests: seq<Digest>, x: Bytes)
    ensures ReadDigests(Joined(digests) + x, |digests|) == Reading(digests, x)
  {
    if digests == [] {
      assert Joined(digests) + x == x;
    } else {
      Associate(digests[0], Joined(digests[1..]), x);
      FrontAndRest(digests[0], Joined(digests[1..]) + x);
      DigestsRead(digests[1..], x);
      assert digests == [digests[0]] + digests[1..];
    }
  }

  lemma {:induction false} ThreeTags(a: char, b: char, c: char, x: Bytes)
    ensures [a, b, c] + x == [a] + ([b] + ([c] + x))
  {
  }

  lemma {:induction false} OutcomeReads(o: Outcome, x: Bytes)
    ensures ReadOutcome(OutcomeTags(o) + x) == Reading(o, x)
  {
    var a, b, c := StatusTag(o.status), ExactnessTag(o.exactness), CompletenessTag(o.completeness);
    ThreeTags(a, b, c, x);
    TagReads(a, [b] + ([c] + x));
    TagReads(b, [c] + x);
    TagReads(c, x);
  }

  lemma {:induction false} NoErrorReads()
    ensures ReadError([0 as char]) == Reading(None, [])
  {
    assert [0 as char] + [] == [0 as char];
    TagReads(0 as char, []);
  }

  lemma {:induction false} CodeReads(code: FailureCode)
    ensures 1 <= FailureTag(code) as int <= 8 && CODES[FailureTag(code) as int - 1] == code
  {
  }

  lemma {:induction false} FailureReads(f: Failure, code: char, again: char)
    requires code == FailureTag(f.code) && again == if f.retryable then 1 as char else 0 as char
    ensures ReadError([1 as char, code, again] + StringBytes(f.detail)) == Reading(Some(f), [])
  {
    var detail := StringBytes(f.detail);
    ThreeTags(1 as char, code, again, detail);
    TagReads(1 as char, [code] + ([again] + detail));
    TagReads(code, [again] + detail);
    TagReads(again, detail);
    assert detail + [] == detail;
    TextReads(f.detail, []);
    CodeReads(f.code);
  }

  lemma {:induction false} ErrorReads(e: Option<Failure>)
    ensures ReadError(ErrorBytes(e)) == Reading(e, [])
  {
    match e
    case None => NoErrorReads();
    case Some(f) => FailureReads(f, FailureTag(f.code), if f.retryable then 1 as char else 0 as char);
  }

  lemma {:induction false} TableReads(sha: Sha256, r: Result, x: Bytes)
    requires Countable(r)
    ensures var bytes := U64(|r.variables|) + (StringsBytes(r.variables)
        + (U64(r.candidateBindingCount) + (U64(r.solutionMultiplicityTotal)
        + (U64(|r.solutions|) + (Joined(SortedDigests(sha, r.solutions)) + x)))));
      ReadTable(bytes) == Reading(
        Table(r.variables, r.candidateBindingCount, r.solutionMultiplicityTotal, SortedDigests(sha, r.solutions)), x)
  {
    var digests := Joined(SortedDigests(sha, r.solutions)) + x;
    var height := U64(|r.solutions|) + digests;
    var total := U64(r.solutionMultiplicityTotal) + height;
    var candidates := U64(r.candidateBindingCount) + total;
    U64Reads(|r.variables|, StringsBytes(r.variables) + candidates);
    TextsRead(r.variables, candidates);
    U64Reads(r.candidateBindingCount, total);
    U64Reads(r.solutionMultiplicityTotal, height);
    U64Reads(|r.solutions|, digests);
    DigestsRead(SortedDigests(sha, r.solutions), x);
  }

  lemma {:induction false} BodyReads(sha: Sha256, r: Result, version: nat, key: Key, graph: Graph)
    requires Countable(r)
    ensures ReadBody(TableBytes(sha, r), version, key, graph) == Reading(
      ResultImage(
        version, key, graph,
        Table(r.variables, r.candidateBindingCount, r.solutionMultiplicityTotal, SortedDigests(sha, r.solutions)),
        r.outcome, r.error), [])
  {
    TableReads(sha, r, OutcomeTags(r.outcome) + ErrorBytes(r.error));
    OutcomeReads(r.outcome, ErrorBytes(r.error));
    ErrorReads(r.error);
  }

  /** The result pre-image holds, in this order, the version, the identity, the graph, the table with the
      sorted row digests, the outcome and the error. */
  lemma {:induction false} ResultReads(lib: Library, r: Result)
    requires Encodable(lib, r)
    ensures ReadResult(ResultBytes(lib, r)) == Reading(
      ResultImage(
        r.formatVersion, KeyOf(lib, r.id), r.id.graphContext,
        Table(r.variables, r.candidateBindingCount, r.solutionMultiplicityTotal, SortedDigests(lib.sha, r.solutions)),
        r.outcome, r.error), [])
  {
    var table := TableBytes(lib.sha, r);
    var graph := GraphBytes(r.id.graphContext) + table;
    var key := KeyBytes(lib, r.id) + ([1 as char] + graph);
    DomainReads("ngkg-direct-bgp-result-v1\0", BigEndian(r.formatVersion, 4) + key);
    Widths();
    NumberReads(r.formatVersion, 4, key);
    KeyReads(lib, r.id, [1 as char] + graph);
    DomainReads([1 as char], graph);
    GraphReads(r.id.graphContext, table);
    BodyReads(lib.sha, r, r.formatVersion, KeyOf(lib, r.id), r.id.graphContext);
  }

  /** The sorted row digests are the digests of the rows in increasing order. */
  lemma {:induction false} DigestsOfRows(sha: Sha256, rows: seq<Solution>, digests: seq<Digest>)
    requires Packable(rows) && |digests| == |rows|
    requires forall i :: 0 <= i < |rows| ==> rows[i] in rows && digests[i] == sha(SolutionBytes(rows[i]))
    ensures multiset(SortedDigests(sha, rows)) == multiset(digests)
    ensures forall i, j :: 0 <= i < j < |rows| ==> Le(SortedDigests(sha, rows)[i], SortedDigests(sha, rows)[j])
  {
    forall i | 0 <= i < |rows| ensures RowDigests(sha, rows)[i] == digests[i] {
      assert RowDigests(sha, rows)[i] == RowDigester(sha)(rows[i]);
    }
    assert RowDigests(sha, rows) == digests;
    DigestOrder();
    assert SortedBy(SortedDigests(sha, rows), DigestLe);
  }

  // ----- equal identifiers

  /** Equal completion pre-images share exactly the two UUIDs and the eight texts. */
  lemma {:induction false} CompletionBytesExact(lib: Library, m: Manifest, k: Manifest)
    requires Readable(lib, m.id) && Readable(lib, k.id)
    ensures CompletionBytes(lib, m) == CompletionBytes(lib, k) <==>
      && lib.uuid(m.id.datasetId) == lib.uuid(k.id.datasetId) && lib.uuid(m.id.snapshotId) == lib.uuid(k.id.snapshotId)
      && m.id.querySha256 == k.id.querySha256 && m.id.bgpSha256 == k.id.bgpSha256
      && m.directBgpResultSha256 == k.directBgpResultSha256 && m.candidateSpaceSha256 == k.candidateSpaceSha256
      && m.executionRootSha256 == k.executionRootSha256 && m.reasonerEngine == k.reasonerEngine
      && m.reasonerVersion == k.reasonerVersion && m.adapterVersion == k.adapterVersion
  {
    CompletionReads(lib, m);
    CompletionReads(lib, k);
  }

  /** Equal support pre-images, of proofs under any two identities, share exactly the identity up to the
      spelling of the UUIDs, the graph, and every field of the proof except the identifier itself. */
  lemma {:induction false} SupportBytesExact(lib: Library, a: Identity, p: AnswerProof, b: Identity, q: AnswerProof)
    requires Readable(lib, a) && Readable(lib, b) && ProofPackable(p) && ProofPackable(q)
    ensures SupportBytes(lib, a, p) == SupportBytes(lib, b, q) <==>
      && lib.uuid(a.datasetId) == lib.uuid(b.datasetId) && lib.uuid(a.snapshotId) == lib.uuid(b.snapshotId)
      && a.(datasetId := b.datasetId, snapshotId := b.snapshotId) == b
      && p.(supportId := q.supportId) == q
  {
    SupportReads(lib, a, p);
    SupportReads(lib, b, q);
    if KeyOf(lib, a) == KeyOf(lib, b) {
      assert KeyStrings(a) == KeyStrings(b) && KeyBytes(lib, a) == KeyBytes(lib, b);
    }
    assert p.(supportId := q.supportId) == q ==> ProofStrings(p) == ProofStrings(q);
  }
}
