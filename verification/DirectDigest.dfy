/** What equality of Direct-BGP result pre-images means: the same result, up to the order in
    which partitions delivered its solutions. */
module DirectDigest {
  import opened Options
  import opened Sorting
  import opened Sequences
  import opened DirectEncoding
  import opened DirectSpelling
  import opened DirectResult

  /** Equal in every field; the solutions as a bag. */
  ghost predicate SameResult(a: Result, b: Result) {
    a.id == b.id && SameTable(a, b)
  }

  /** Equal up to the spelling of the two identifiers, which are hashed as UUID bytes. */
  ghost predicate SameAnswer(lib: Library, a: Result, b: Result) {
    SameIdentity(lib, a.id, b.id) && SameTable(a, b)
  }

  predicate SameSpelling(a: Identity, b: Identity) {
    a.datasetId == b.datasetId && a.snapshotId == b.snapshotId
  }

  predicate SameIdentity(lib: Library, a: Identity, b: Identity) {
    && lib.uuid(a.datasetId) == lib.uuid(b.datasetId) && lib.uuid(a.snapshotId) == lib.uuid(b.snapshotId)
    && a.(datasetId := b.datasetId, snapshotId := b.snapshotId) == b
  }

  ghost predicate SameTable(a: Result, b: Result) {
    && a.formatVersion == b.formatVersion
    && a.variables == b.variables
    && a.candidateBindingCount == b.candidateBindingCount
    && a.solutionMultiplicityTotal == b.solutionMultiplicityTotal
    && multiset(a.solutions) == multiset(b.solutions)
    && a.outcome == b.outcome
    && a.error == b.error
  }

  ghost function RowPreimages(rows: seq<Solution>): set<Bytes>
    requires Packable(rows)
  {
    set s | s in rows :: SolutionBytes(s)
  }

  // ----- cutting the pre-image apart

  lemma {:induction false} KeyCut(lib: Library, a: Identity, b: Identity, x: Bytes, y: Bytes)
    requires Readable(lib, a) && Readable(lib, b)
    requires KeyBytes(lib, a) + x == KeyBytes(lib, b) + y
    ensures SameIdentity(lib, a.(graphContext := b.graphContext), b) && x == y
  {
    var s, t := StringsBytes(KeyStrings(a)), StringsBytes(KeyStrings(b));
    var j, k := lib.uuid(a.datasetId).value, lib.uuid(b.datasetId).value;
    var m, n := lib.uuid(a.snapshotId).value, lib.uuid(b.snapshotId).value;
    Append2Tail(j, m, s, x);
    Append2Tail(k, n, t, y);
    Cut(j, k, m + (s + x), n + (t + y));
    Cut(m, n, s + x, t + y);
    StringsCut(KeyStrings(a), KeyStrings(b), x, y);
    KeyStringsInjective(a, b);
  }

  lemma {:induction false} KeyStringsInjective(a: Identity, b: Identity)
    requires KeyStrings(a) == KeyStrings(b)
    ensures a.(datasetId := b.datasetId, snapshotId := b.snapshotId, graphContext := b.graphContext) == b
  {
    var s, t := KeyStrings(a), KeyStrings(b);
    assert s[0] == t[0] && s[1] == t[1] && s[2] == t[2] && s[3] == t[3] && s[4] == t[4] && s[5] == t[5];
  }

  lemma {:induction false} SolutionBytesInjective(s: Solution, t: Solution)
    requires U64Range(s.multiplicity) && U64Range(t.multiplicity)
    requires SolutionBytes(s) == SolutionBytes(t)
    ensures s == t
  {
    Cut(SOLUTION_DOMAIN, SOLUTION_DOMAIN,
        RowBytes(s.bindings) + U64(s.multiplicity), RowBytes(t.bindings) + U64(t.multiplicity));
    RowCut(s.bindings, t.bindings, U64(s.multiplicity), U64(t.multiplicity));
    U64Cut(s.multiplicity, t.multiplicity, [], []);
  }

  lemma {:induction false} JoinedCut(a: seq<Digest>, b: seq<Digest>, x: Bytes, y: Bytes)
    requires |a| == |b| && Joined(a) + x == Joined(b) + y
    ensures a == b && x == y
  {
    if a != [] {
      Associate(a[0], Joined(a[1..]), x);
      Associate(b[0], Joined(b[1..]), y);
      Cut(a[0], b[0], Joined(a[1..]) + x, Joined(b[1..]) + y);
      JoinedCut(a[1..], b[1..], x, y);
      assert a == [a[0]] + a[1..] && b == [b[0]] + b[1..];
    } else {
      assert Joined(a) + x == x && Joined(b) + y == y;
    }
  }

  lemma {:induction false} OutcomeCut(a: Outcome, b: Outcome, x: Bytes, y: Bytes)
    requires OutcomeTags(a) + x == OutcomeTags(b) + y
    ensures a == b && x == y
  {
    Cut(OutcomeTags(a), OutcomeTags(b), x, y);
    var s, t := OutcomeTags(a), OutcomeTags(b);
    assert s[0] == t[0] && s[1] == t[1] && s[2] == t[2];
  }

  lemma {:induction false} ErrorBytesInjective(a: Option<Failure>, b: Option<Failure>)
    requires ErrorBytes(a) == ErrorBytes(b)
    ensures a == b
  {
    assert ErrorBytes(a)[0] == ErrorBytes(b)[0];
    if a.Some? {
      var s := [1 as char, FailureTag(a.value.code), if a.value.retryable then 1 as char else 0 as char];
      var t := [1 as char, FailureTag(b.value.code), if b.value.retryable then 1 as char else 0 as char];
      Cut(s, t, StringBytes(a.value.detail), StringBytes(b.value.detail));
      assert s[1] == t[1] && s[2] == t[2];
      assert StringBytes(a.value.detail) + [] == StringBytes(b.value.detail) + [];
      StringCut(a.value.detail, b.value.detail, [], []);
    }
  }

  lemma {:induction false} RowsBytesCut(sha: Sha256, a: Result, b: Result)
    requires |a.solutions| < MAX_LENGTH && |b.solutions| < MAX_LENGTH
    requires RowsBytes(sha, a) == RowsBytes(sha, b)
    ensures SortedDigests(sha, a.solutions) == SortedDigests(sha, b.solutions)
    ensures a.outcome == b.outcome && a.error == b.error
  {
    var j, k := SortedDigests(sha, a.solutions), SortedDigests(sha, b.solutions);
    var x := OutcomeTags(a.outcome) + ErrorBytes(a.error);
    var y := OutcomeTags(b.outcome) + ErrorBytes(b.error);
    U64Cut(|a.solutions|, |b.solutions|, Joined(j) + x, Joined(k) + y);
    JoinedCut(j, k, x, y);
    OutcomeCut(a.outcome, b.outcome, ErrorBytes(a.error), ErrorBytes(b.error));
    ErrorBytesInjective(a.error, b.error);
  }

  lemma {:induction false} TableCut(sha: Sha256, a: Result, b: Result)
    requires Countable(a) && Countable(b)
    requires TableBytes(sha, a) == TableBytes(sha, b)
    ensures a.variables == b.variables
    ensures a.candidateBindingCount == b.candidateBindingCount
    ensures a.solutionMultiplicityTotal == b.solutionMultiplicityTotal
    ensures RowsBytes(sha, a) == RowsBytes(sha, b)
  {
    var x := U64(a.solutionMultiplicityTotal) + RowsBytes(sha, a);
    var y := U64(b.solutionMultiplicityTotal) + RowsBytes(sha, b);
    var xx, yy := U64(a.candidateBindingCount) + x, U64(b.candidateBindingCount) + y;
    U64Cut(|a.variables|, |b.variables|, StringsBytes(a.variables) + xx, StringsBytes(b.variables) + yy);
    StringsCut(a.variables, b.variables, xx, yy);
    U64Cut(a.candidateBindingCount, b.candidateBindingCount, x, y);
    U64Cut(a.solutionMultiplicityTotal, b.solutionMultiplicityTotal, RowsBytes(sha, a), RowsBytes(sha, b));
  }

  lemma {:induction false} ResultBytesCut(lib: Library, a: Result, b: Result)
    requires Encodable(lib, a) && Encodable(lib, b)
    requires ResultBytes(lib, a) == ResultBytes(lib, b)
    ensures a.formatVersion == b.formatVersion && SameIdentity(lib, a.id, b.id)
    ensures TableBytes(lib.sha, a) == TableBytes(lib.sha, b)
  {
    var x := GraphBytes(a.id.graphContext) + TableBytes(lib.sha, a);
    var y := GraphBytes(b.id.graphContext) + TableBytes(lib.sha, b);
    var u, v := [1 as char] + x, [1 as char] + y;
    var p, q := BigEndian(a.formatVersion, 4), BigEndian(b.formatVersion, 4);
    Cut(RESULT_DOMAIN, RESULT_DOMAIN, p + (KeyBytes(lib, a.id) + u), q + (KeyBytes(lib, b.id) + v));
    Cut(p, q, KeyBytes(lib, a.id) + u, KeyBytes(lib, b.id) + v);
    Widths();
    BigEndianInjective(a.formatVersion, b.formatVersion, 4);
    KeyCut(lib, a.id, b.id, u, v);
    Cut([1 as char], [1 as char], x, y);
    GraphCut(a.id.graphContext, b.id.graphContext, TableBytes(lib.sha, a), TableBytes(lib.sha, b));
  }

  // ----- the bag of solutions behind the sorted row digests

  lemma {:induction false} SortedDigestsForgetOrder(sha: Sha256, a: seq<Solution>, b: seq<Solution>)
    requires multiset(a) == multiset(b)
    ensures SortedDigests(sha, a) == SortedDigests(sha, b)
  {
    MapPermutation(RowDigester(sha), a, b);
    DigestOrder();
    SortedUnique(SortedDigests(sha, a), SortedDigests(sha, b), DigestLe);
  }

  lemma {:induction false} RowDigestInjective(sha: Sha256, inputs: set<Bytes>, s: Solution, t: Solution)
    requires U64Range(s.multiplicity) && U64Range(t.multiplicity)
    requires CollisionFree(sha, inputs) && SolutionBytes(s) in inputs && SolutionBytes(t) in inputs
    requires RowDigest(sha, s) == RowDigest(sha, t)
    ensures s == t
  {
    SolutionBytesInjective(s, t);
  }

  lemma {:induction false} RowDigesterInjective(sha: Sha256, a: seq<Solution>, b: seq<Solution>)
    requires Packable(a) && Packable(b)
    requires CollisionFree(sha, RowPreimages(a) + RowPreimages(b))
    ensures forall x, y :: x in a + b && y in a + b && RowDigester(sha)(x) == RowDigester(sha)(y) ==> x == y
  {
    var inputs := RowPreimages(a) + RowPreimages(b);
    forall x, y | x in a + b && y in a + b && RowDigester(sha)(x) == RowDigester(sha)(y)
      ensures x == y
    {
      RowDigestInjective(sha, inputs, x, y);
    }
  }

  lemma {:induction false} SortedDigestsBag(sha: Sha256, rows: seq<Solution>)
    ensures multiset(SortedDigests(sha, rows)) == multiset(Map(RowDigester(sha), rows))
  {
    DigestOrder();
  }

  lemma {:induction false} SortedDigestsDetermineBag(sha: Sha256, a: seq<Solution>, b: seq<Solution>)
    requires Packable(a) && Packable(b)
    requires CollisionFree(sha, RowPreimages(a) + RowPreimages(b))
    requires SortedDigests(sha, a) == SortedDigests(sha, b)
    ensures multiset(a) == multiset(b)
  {
    SortedDigestsBag(sha, a);
    SortedDigestsBag(sha, b);
    RowDigesterInjective(sha, a, b);
    MapReflectsBags(RowDigester(sha), a, b);
  }

  // ----- main results

  lemma {:induction false} SameKeyBytes(lib: Library, a: Identity, b: Identity)
    requires Readable(lib, a) && Readable(lib, b) && SameIdentity(lib, a, b)
    ensures KeyBytes(lib, a) == KeyBytes(lib, b) && a.graphContext == b.graphContext
  {
    assert KeyStrings(a) == KeyStrings(b);
  }

  /** Neither the order in which solutions are listed nor the spelling of the identifiers reaches the digest. */
  lemma {:induction false} PreimageForgetsOrder(lib: Library, a: Result, b: Result)
    requires Encodable(lib, a) && Encodable(lib, b)
    requires SameAnswer(lib, a, b)
    ensures ResultBytes(lib, a) == ResultBytes(lib, b)
  {
    SameMembers(a.solutions, b.solutions);
    SortedDigestsForgetOrder(lib.sha, a.solutions, b.solutions);
    assert RowsBytes(lib.sha, a) == RowsBytes(lib.sha, b);
    assert TableBytes(lib.sha, a) == TableBytes(lib.sha, b);
    SameKeyBytes(lib, a.id, b.id);
  }

  /** Equal pre-images come from the same answer: exactly the listing order and the spelling of the
      identifiers are forgotten. So they come from equal documents exactly when those are spelled alike. */
  lemma {:induction false} PreimageDeterminesResult(lib: Library, a: Result, b: Result)
    requires Encodable(lib, a) && Encodable(lib, b)
    requires CollisionFree(lib.sha, RowPreimages(a.solutions) + RowPreimages(b.solutions))
    ensures ResultBytes(lib, a) == ResultBytes(lib, b) <==> SameAnswer(lib, a, b)
    ensures ResultBytes(lib, a) == ResultBytes(lib, b) ==> (SameResult(a, b) <==> SameSpelling(a.id, b.id))
  {
    if ResultBytes(lib, a) == ResultBytes(lib, b) {
      ResultBytesCut(lib, a, b);
      TableCut(lib.sha, a, b);
      RowsBytesCut(lib.sha, a, b);
      SortedDigestsDetermineBag(lib.sha, a.solutions, b.solutions);
    }
    if SameAnswer(lib, a, b) {
      PreimageForgetsOrder(lib, a, b);
    }
  }

  /** The inputs SHA-256 is applied to when both results are digested. */
  ghost function DigestInputs(lib: Library, a: Result, b: Result): set<Bytes>
    requires Encodable(lib, a) && Encodable(lib, b)
  {
    RowPreimages(a.solutions) + RowPreimages(b.solutions) + {ResultBytes(lib, a), ResultBytes(lib, b)}
  }

  /** The published digest identifies the answer. */
  lemma {:induction false} DigestDeterminesResult(lib: Library, a: Result, b: Result)
    requires SchemaValid(lib, a) && SchemaValid(lib, b) && Encodable(lib, a) && Encodable(lib, b)
    requires CollisionFree(lib.sha, DigestInputs(lib, a, b))
    ensures ResultDigest(lib, a) == ResultDigest(lib, b) <==> SameAnswer(lib, a, b)
    ensures ResultDigest(lib, a) == ResultDigest(lib, b) ==> (SameResult(a, b) <==> SameSpelling(a.id, b.id))
  {
    PreimageDeterminesResult(lib, a, b);
    if ResultDigest(lib, a) == ResultDigest(lib, b) {
      HexDigestCollisionFree(lib.sha, DigestInputs(lib, a, b), ResultBytes(lib, a), ResultBytes(lib, b));
    }
  }

  /** Where `uuid.UUID` reads hexadecimal digits in either case, every digestible result has a twin that
      differs in the spelling of its dataset and has the same digest. */
  lemma {:induction false} SpellingsShareADigest(lib: Library, r: Result)
    requires SchemaValid(lib, r) && Encodable(lib, r)
    requires lib.uuid(LOWER_UUID) == HexUuid(LOWER_UUID) && lib.uuid(UPPER_UUID) == HexUuid(UPPER_UUID)
    ensures var a, b := r.(id := r.id.(datasetId := LOWER_UUID)), r.(id := r.id.(datasetId := UPPER_UUID));
      && ResultDigest(lib, a).Some? && ResultDigest(lib, a) == ResultDigest(lib, b)
      && a.id.datasetId != b.id.datasetId && !SameResult(a, b)
  {
    CaseIsNotRead();
    var a, b := r.(id := r.id.(datasetId := LOWER_UUID)), r.(id := r.id.(datasetId := UPPER_UUID));
    SpellingIsFree(lib, r, LOWER_UUID);
    SpellingIsFree(lib, r, UPPER_UUID);
    PreimageForgetsOrder(lib, a, b);
  }

  lemma {:induction false} SpellingIsFree(lib: Library, r: Result, text: Text)
    requires SchemaValid(lib, r) && Encodable(lib, r) && lib.uuid(text).Some?
    ensures var a := r.(id := r.id.(datasetId := text));
      SchemaValid(lib, a) && Encodable(lib, a)
  {
    var a := r.(id := r.id.(datasetId := text));
    assert KeyStrings(a.id) == KeyStrings(r.id);
  }
}
