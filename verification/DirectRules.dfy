/** Exactly which results and certificates the two validators accept, on characters and fields. */
module DirectRules {
  import opened HexSha
  import opened Options
  import opened Orders
  import opened Sorting
  import opened DirectEncoding
  import opened DirectSpelling
  import opened DirectResult
  import opened DirectCertificate
  import opened DirectIssue

  // ----- characters

  type CodePoint = n: int | 0 <= n < 0x110000

  /** UTF-8, section 3 of RFC 3629. */
  function Utf8Of(n: CodePoint): string {
    if n < 0x80 then [n as char]
    else if n < 0x800 then [(0xC0 + n / 64) as char, Continuation(n)]
    else if n < 0x10000 then [(0xE0 + n / 4096) as char, Continuation(n / 64), Continuation(n)]
    else [(0xF0 + n / 262144) as char, Continuation(n / 4096), Continuation(n / 64), Continuation(n)]
  }

  function Continuation(n: nat): char {
    (0x80 + n % 64) as char
  }

  function Utf8(points: seq<CodePoint>): string {
    if points == [] then [] else Utf8Of(points[0]) + Utf8(points[1..])
  }

  lemma {:induction false} CodePointsConcat(a: string, b: string)
    ensures CodePoints(a + b) == CodePoints(a) + CodePoints(b)
  {
    if a == [] {
      assert a + b == b;
    } else {
      assert (a + b)[0] == a[0] && (a + b)[1..] == a[1..] + b;
      CodePointsConcat(a[1..], b);
    }
  }

  lemma {:induction false} Continued(s: string)
    requires s != [] && !(0x80 <= s[0] as int < 0xC0) && forall i :: 1 <= i < |s| ==> 0x80 <= s[i] as int < 0xC0
    ensures CodePoints(s) == 1
  {
    NoStarts(s[1..]);
  }

  lemma {:induction false} NoStarts(s: string)
    requires forall i :: 0 <= i < |s| ==> 0x80 <= s[i] as int < 0xC0
    ensures CodePoints(s) == 0
  {
    if s != [] { NoStarts(s[1..]); }
  }

  /** The length the schemas and the validators measure is the number of characters. */
  lemma {:induction false} CharactersCounted(points: seq<CodePoint>)
    ensures CodePoints(Utf8(points)) == |points|
  {
    if points != [] {
      Continued(Utf8Of(points[0]));
      CodePointsConcat(Utf8Of(points[0]), Utf8(points[1..]));
      CharactersCounted(points[1..]);
    }
  }

  /** A scheme name of section 3.1 of RFC 3986. */
  predicate SchemeName(s: string) {
    && s != [] && (65 <= s[0] as int <= 90 || 97 <= s[0] as int <= 122)
    && forall i :: 0 <= i < |s| ==> SchemeCharacter(s[i])
  }

  predicate SchemeCharacter(c: char) {
    var n := c as int;
    65 <= n <= 90 || 97 <= n <= 122 || 48 <= n <= 57 || n == 43 || n == 45 || n == 46
  }

  ghost predicate StartsWithScheme(s: string) {
    exists scheme, rest :: SchemeName(scheme) && s == scheme + ([':'] + rest)
  }

  lemma {:induction false} BeforeColonSplits(s: string)
    ensures ':' !in BeforeColon(s) && BeforeColon(s) <= s
    ensures ':' in s ==> |BeforeColon(s)| < |s| && s[|BeforeColon(s)|] == ':'
  {
    if s != [] && s[0] != ':' {
      BeforeColonSplits(s[1..]);
      if ':' in s { assert ':' in s[1..]; }
    }
  }

  lemma {:induction false} BeforeColonOf(scheme: string, rest: string)
    requires ':' !in scheme
    ensures BeforeColon(scheme + ([':'] + rest)) == scheme
  {
    var s := scheme + ([':'] + rest);
    if scheme != [] {
      assert s[0] == scheme[0] && s[1..] == scheme[1..] + ([':'] + rest);
      BeforeColonOf(scheme[1..], rest);
      assert scheme == [scheme[0]] + scheme[1..];
    }
  }

  lemma {:induction false} SchemeExactly(s: string)
    ensures Scheme(s) <==> SchemeName(s)
  {
    forall c ensures SchemeCharacter(c) <==> Letter(c) || '0' <= c <= '9' || c in "+.-" { SchemeLetters(c); }
  }

  lemma {:induction false} SchemeLetters(c: char)
    ensures SchemeCharacter(c) <==> Letter(c) || '0' <= c <= '9' || c in "+.-"
  {
    var others := "+.-";
    assert others[0] == '+' && others[1] == '.' && others[2] == '-';
  }

  /** An absolute IRI is a text without white space that starts with a scheme name and a colon. */
  lemma {:induction false} IriExactly(lib: Library, s: Text)
    ensures AbsoluteIri(lib, s) <==> !lib.hasSpace(s) && StartsWithScheme(s)
  {
    BeforeColonSplits(s);
    SchemeExactly(BeforeColon(s));
    if AbsoluteIri(lib, s) {
      var scheme := BeforeColon(s);
      assert s == scheme + ([':'] + s[|scheme|+1..]);
    }
    if scheme, rest :| SchemeName(scheme) && s == scheme + ([':'] + rest) {
      assert !SchemeCharacter(':');
      BeforeColonOf(scheme, rest);
      assert s[|scheme|] == ':';
    }
  }

  /** The text, or the text and one line feed after it. */
  predicate OrWithNewline(s: Text, body: string) {
    s == body || s == body + "\n"
  }

  /** A digest in lower-case hexadecimal; the schemas let a line feed follow. */
  ghost predicate DigestText(s: Text) {
    exists body :: OrWithNewline(s, body) && IsSha(body)
  }

  lemma {:induction false} DigestExactly(s: Text)
    ensures ShaPattern(s) <==> DigestText(s)
  {
    if ShaPattern(s) { assert OrWithNewline(s, BeforeNewline(s)); }
    if body :| OrWithNewline(s, body) && IsSha(body) {
      assert HexChar(body[63]);
    }
  }

  ghost predicate SolidText(lib: Library, s: Text) {
    exists body: Text :: OrWithNewline(s, body) && body != [] && !lib.hasSpace(body)
  }

  lemma {:induction false} SolidExactly(lib: Library, s: Text)
    ensures NonSpacePattern(lib, s) ==> SolidText(lib, s)
    ensures SolidText(lib, s) ==> NonSpacePattern(lib, s)
  {
    assert OrWithNewline(s, s) && OrWithNewline(s, BeforeNewline(s));
    if body: Text :| OrWithNewline(s, body) && body != [] && !lib.hasSpace(body) {
      if s != body { assert BeforeNewline(s) == body; }
    }
  }

  // ----- the result

  ghost predicate GoodIri(lib: Library, s: Text) {
    3 <= CodePoints(s) <= 8192 && !lib.hasSpace(s) && StartsWithScheme(s)
  }

  const LANGUAGE_STRING := "http://www.w3.org/1999/02/22-rdf-syntax-ns#langString"

  ghost predicate GoodTerm(lib: Library, t: Term) {
    match t
    case Iri(value) => GoodIri(lib, value)
    case BlankNode(value) => 1 <= CodePoints(value) <= 1024 && !lib.hasSpace(value)
    case Literal(form, datatype_, language) =>
      && CodePoints(form) <= 1048576 && GoodIri(lib, datatype_)
      && (language.Some? ==> GoodLanguage(lib, language.value) && datatype_ == LANGUAGE_STRING)
  }

  lemma {:induction false} GoodIriExactly(lib: Library, s: Text)
    ensures LengthBetween(s, 3, 8192) && AbsoluteIri(lib, s) <==> GoodIri(lib, s)
  {
    IriExactly(lib, s);
  }

  lemma {:induction false} BlankExactly(lib: Library, s: Text)
    ensures LengthBetween(s, 1, 1024) && NonSpacePattern(lib, s) && BlankNodeLabel(lib, s) <==>
      1 <= CodePoints(s) <= 1024 && !lib.hasSpace(s)
  {
  }

  ghost predicate GoodLanguage(lib: Library, s: Text) {
    1 <= CodePoints(s) <= 63 && SolidText(lib, s)
  }

  lemma {:induction false} LanguageExactly(lib: Library, s: Text)
    ensures LengthBetween(s, 1, 63) && NonSpacePattern(lib, s) <==> GoodLanguage(lib, s)
  {
    SolidExactly(lib, s);
  }

  lemma {:induction false} LiteralExactly(lib: Library, form: Text, datatype_: Text, language: Option<Text>)
    ensures var t := Literal(form, datatype_, language);
      TermSchemaValid(lib, t) && TermValid(lib, t) <==> GoodTerm(lib, t)
  {
    GoodIriExactly(lib, datatype_);
    if language.Some? { LanguageExactly(lib, language.value); }
  }

  lemma {:induction false} TermExactly(lib: Library, t: Term)
    ensures TermSchemaValid(lib, t) && TermValid(lib, t) <==> GoodTerm(lib, t)
  {
    match t
    case Iri(value) => GoodIriExactly(lib, value);
    case BlankNode(value) => BlankExactly(lib, value);
    case Literal(form, datatype_, language) => LiteralExactly(lib, form, datatype_, language);
  }

  /** A solution occurs at least once and binds only declared variables. */
  ghost predicate GoodSolution(lib: Library, variables: seq<Text>, s: Solution) {
    1 <= s.multiplicity && forall k :: k in s.bindings ==> k in variables && GoodTerm(lib, s.bindings[k])
  }

  /** At most 1024 characters, no white space, and no leading `?` or `$`. */
  predicate GoodVariable(lib: Library, v: Text) {
    1 <= CodePoints(v) <= 1024 && !lib.hasSpace(v) && v != [] && v[0] != '?' && v[0] != '$'
  }

  /** The six digests of what was asked of which data. */
  ghost predicate GoodDigests(id: Identity) {
    && DigestText(id.querySha256) && DigestText(id.bgpSha256) && DigestText(id.activeDatasetSha256)
    && DigestText(id.authorizedGraphSetSha256) && DigestText(id.owlSignatureSha256)
    && DigestText(id.datatypePolicySha256)
  }

  ghost predicate GoodGraph(lib: Library, g: Graph) {
    match g
    case NamedGraph(iri) => GoodIri(lib, iri)
    case DefaultGraph(sha) => DigestText(sha)
  }

  /** A complete result is exact, has no error and no more rows than candidates; a failed one has an error and no
      rows, and establishes nothing. */
  predicate GoodOutcome(r: Result) {
    || (r.outcome == Outcome(CompleteStatus, Exact, Complete) && r.error == None
        && |r.solutions| <= r.candidateBindingCount)
    || (r.outcome in [Outcome(FailedStatus, ExactnessNotEstablished, Incomplete),
                      Outcome(FailedStatus, ExactnessNotEstablished, CompletenessNotEstablished)]
        && r.error.Some? && 1 <= CodePoints(r.error.value.detail) <= 4096 && r.solutions == [])
  }

  ghost predicate GoodResult(lib: Library, r: Result) {
    && r.formatVersion == 1 && GoodDigests(r.id) && GoodGraph(lib, r.id.graphContext)
    && (r.id.graphContext.DefaultGraph? ==> IsSha(r.id.graphContext.activeDefaultGraphSha256))
    && (forall i, j :: 0 <= i < j < |r.variables| ==> Lt(r.variables[i], r.variables[j]))
    && (forall i :: 0 <= i < |r.variables| ==> GoodVariable(lib, r.variables[i]))
    && (forall i :: 0 <= i < |r.solutions| ==> GoodSolution(lib, r.variables, r.solutions[i]))
    && r.solutionMultiplicityTotal == |Units(r.solutions)| < U64_LIMIT
    && r.candidateBindingCount >= 0 && GoodOutcome(r)
  }

  lemma {:induction false} DigestsExactly(id: Identity)
    ensures (forall i :: 0 <= i < 6 ==> ShaPattern(KeyStrings(id)[i])) <==> GoodDigests(id)
  {
    DigestExactly(id.querySha256);
    DigestExactly(id.bgpSha256);
    DigestExactly(id.activeDatasetSha256);
    DigestExactly(id.authorizedGraphSetSha256);
    DigestExactly(id.owlSignatureSha256);
    DigestExactly(id.datatypePolicySha256);
    SixTexts(KeyStrings(id));
  }

  lemma {:induction false} SixTexts(texts: seq<Text>)
    requires |texts| == 6
    ensures (forall i :: 0 <= i < 6 ==> ShaPattern(texts[i])) <==>
      && ShaPattern(texts[0]) && ShaPattern(texts[1]) && ShaPattern(texts[2])
      && ShaPattern(texts[3]) && ShaPattern(texts[4]) && ShaPattern(texts[5])
  {
  }

  lemma {:induction false} GraphExactly(lib: Library, g: Graph)
    ensures GraphSchemaValid(g) && (g.NamedGraph? ==> AbsoluteIri(lib, g.graphIri)) <==> GoodGraph(lib, g)
  {
    match g
    case NamedGraph(iri) => GoodIriExactly(lib, iri);
    case DefaultGraph(sha) => DigestExactly(sha);
  }

  lemma {:induction false} IdentityExactly(lib: Library, id: Identity)
    ensures IdentitySchemaValid(id) && (id.graphContext.NamedGraph? ==> AbsoluteIri(lib, id.graphContext.graphIri)) <==>
      GoodDigests(id) && GoodGraph(lib, id.graphContext)
  {
    DigestsExactly(id);
    GraphExactly(lib, id.graphContext);
  }

  lemma {:induction false} VariablesExactly(lib: Library, vs: seq<Text>)
    ensures
      && Distinct(vs) && (forall v :: v in vs ==> LengthBetween(v, 1, 1024))
      && StrictlyIncreasing(vs) && (forall v :: v in vs ==> VariableName(lib, v))
      <==>
      && (forall i, j :: 0 <= i < j < |vs| ==> Lt(vs[i], vs[j]))
      && forall i :: 0 <= i < |vs| ==> GoodVariable(lib, vs[i])
  {
    var marks := "?$";
    assert marks[0] == '?' && marks[1] == '$';
    forall v: Text ensures LengthBetween(v, 1, 1024) && VariableName(lib, v) <==> GoodVariable(lib, v) {
    }
    assert forall i :: 0 <= i < |vs| ==> vs[i] in vs;
  }

  lemma {:induction false} SolutionExactly(lib: Library, variables: seq<Text>, s: Solution)
    requires forall v :: v in variables ==> LengthBetween(v, 1, 1024)
    ensures SolutionSchemaValid(lib, s) && RowValid(lib, variables, s.bindings) <==> GoodSolution(lib, variables, s)
  {
    forall k | k in s.bindings
      ensures TermSchemaValid(lib, s.bindings[k]) && TermValid(lib, s.bindings[k]) <==> GoodTerm(lib, s.bindings[k])
    {
      TermExactly(lib, s.bindings[k]);
    }
  }

  lemma {:induction false} SolutionsExactly(lib: Library, variables: seq<Text>, rows: seq<Solution>)
    requires forall v :: v in variables ==> LengthBetween(v, 1, 1024)
    ensures (forall s :: s in rows ==> SolutionSchemaValid(lib, s)) && RowsValid(RowTest(lib, variables), rows) <==>
      forall i :: 0 <= i < |rows| ==> GoodSolution(lib, variables, rows[i])
  {
    forall i | 0 <= i < |rows|
      ensures SolutionSchemaValid(lib, rows[i]) && RowTest(lib, variables)(rows[i].bindings)
        <==> GoodSolution(lib, variables, rows[i])
    {
      SolutionExactly(lib, variables, rows[i]);
    }
    assert forall i :: 0 <= i < |rows| ==> rows[i] in rows;
  }

  lemma {:induction false} OutcomeExactly(r: Result)
    requires r.solutionMultiplicityTotal == TotalMultiplicity(r.solutions)
    ensures OutcomeSchemaValid(r) && (r.outcome.status.CompleteStatus? ==> r.candidateBindingCount >= |r.solutions|)
      <==> GoodOutcome(r)
  {
    assert r.solutions == [] ==> TotalMultiplicity(r.solutions) == 0;
  }

  /** The result validator accepts exactly the good results. */
  lemma {:induction false} ResultExactly(lib: Library, r: Result)
    ensures SchemaValid(lib, r) && SemanticallyValid(lib, r) <==> GoodResult(lib, r)
  {
    if SchemaValid(lib, r) && SemanticallyValid(lib, r) { ValidIsGood(lib, r); }
    if GoodResult(lib, r) { GoodIsValid(lib, r); }
  }

  lemma {:induction false} ValidIsGood(lib: Library, r: Result)
    requires SchemaValid(lib, r) && SemanticallyValid(lib, r)
    ensures GoodResult(lib, r)
  {
    IdentityExactly(lib, r.id);
    VariablesExactly(lib, r.variables);
    SolutionsExactly(lib, r.variables, r.solutions);
    OutcomeExactly(r);
    ResultRows(lib, r);
    UnitsTotal(r.solutions);
  }

  lemma {:induction false} GoodIsValid(lib: Library, r: Result)
    requires GoodResult(lib, r)
    ensures SchemaValid(lib, r) && SemanticallyValid(lib, r)
  {
    IdentityExactly(lib, r.id);
    VariablesExactly(lib, r.variables);
    SolutionsExactly(lib, r.variables, r.solutions);
    forall s | s in r.solutions ensures s.multiplicity >= 1 {
      var i :| 0 <= i < |r.solutions| && r.solutions[i] == s;
      assert GoodSolution(lib, r.variables, r.solutions[i]);
    }
    UnitsTotal(r.solutions);
    OutcomeExactly(r);
  }

  // ----- the certificate

  /** 1 to 256 characters, none of them a control character. */
  predicate GoodField(s: Text) {
    1 <= CodePoints(s) <= 256 && forall i :: 0 <= i < |s| ==> 31 < s[i] as int != 127
  }

  lemma {:induction false} FieldExactly(s: Text)
    ensures LengthBetween(s, 1, 256) && ReasonerField(s) <==> GoodField(s)
  {
  }

  ghost predicate GoodReasoner(x: Reasoner) {
    && GoodField(x.engine) && GoodField(x.engineVersion) && GoodField(x.adapterName) && GoodField(x.adapterVersion)
    && DigestText(x.requestSha256)
  }

  /** The enumeration is finished: every candidate checked, every partition completed, every request answered. */
  ghost predicate FinishedEvidence(x: Evidence) {
    && DigestText(x.candidateSpaceSha256) && DigestText(x.executionRootSha256)
    && 0 <= x.candidateBindingCount == x.checkedCandidateBindingCount
    && 1 <= x.partitionCount == x.completedPartitionCount <= 1_000_000
    && 0 <= x.reasonerRequestCount == x.successfulReasonerRequestCount
  }

  ghost predicate GoodReference(lib: Library, x: SupportReference) {
    && DigestText(x.supportId) && (x.artifactSha256.Some? ==> DigestText(x.artifactSha256.value))
    && (x.sourceGraphIri.Some? ==> GoodIri(lib, x.sourceGraphIri.value))
  }

  /** A certificate of version 2 covers every answer with reasoner checks in one manifest; one of version 1 names no
      manifest. */
  predicate GoodCoverage(c: Certificate) {
    || (c.formatVersion == 1 && c.proofManifestSha256 == None
        && (c.proofCoverage == CompleteCoverage ==> c.supportReferences != []))
    || (c.formatVersion == 2 && c.proofCoverage == CompleteCoverage && c.supportReferences != []
        && c.proofManifestSha256.Some? && IsSha(c.proofManifestSha256.value)
        && forall i :: 0 <= i < |c.supportReferences| ==>
             && c.supportReferences[i].kind == ReasonerCheck
             && c.supportReferences[i].artifactSha256 == c.proofManifestSha256)
  }

  ghost predicate GoodCertificate(lib: Library, c: Certificate) {
    && GoodDigests(c.id) && GoodGraph(lib, c.id.graphContext) && DigestText(c.directBgpResultSha256)
    && GoodReasoner(c.reasoner) && FinishedEvidence(c.completeness) && GoodCoverage(c)
    && |c.supportReferences| <= 1_000_000
    && (forall i :: 0 <= i < |c.supportReferences| ==> GoodReference(lib, c.supportReferences[i]))
    && forall i, j :: 0 <= i < j < |c.supportReferences| ==>
         Lt(c.supportReferences[i].supportId, c.supportReferences[j].supportId)
  }

  lemma {:induction false} ReasonerExactly(x: Reasoner)
    ensures GoodReasoner(x) <==>
      && ReasonerSchemaValid(x) && ReasonerField(x.engine) && ReasonerField(x.engineVersion)
      && ReasonerField(x.adapterName) && ReasonerField(x.adapterVersion)
  {
    FieldExactly(x.engine);
    FieldExactly(x.engineVersion);
    FieldExactly(x.adapterName);
    FieldExactly(x.adapterVersion);
    DigestExactly(x.requestSha256);
  }

  lemma {:induction false} EvidenceExactly(x: Evidence)
    ensures FinishedEvidence(x) <==>
      && EvidenceSchemaValid(x) && x.checkedCandidateBindingCount == x.candidateBindingCount
      && x.completedPartitionCount == x.partitionCount
      && x.successfulReasonerRequestCount == x.reasonerRequestCount
  {
    DigestExactly(x.candidateSpaceSha256);
    DigestExactly(x.executionRootSha256);
  }

  predicate AbsoluteSource(lib: Library, x: SupportReference) {
    x.sourceGraphIri.Some? ==> AbsoluteIri(lib, x.sourceGraphIri.value)
  }

  lemma {:induction false} ReferenceExactly(lib: Library, x: SupportReference)
    ensures ReferenceSchemaValid(x) && AbsoluteSource(lib, x) <==> GoodReference(lib, x)
  {
    DigestExactly(x.supportId);
    if x.artifactSha256.Some? { DigestExactly(x.artifactSha256.value); }
    if x.sourceGraphIri.Some? { GoodIriExactly(lib, x.sourceGraphIri.value); }
  }

  lemma {:induction false} ReferencesExactly(lib: Library, refs: seq<SupportReference>)
    ensures (forall i :: 0 <= i < |refs| ==> GoodReference(lib, refs[i])) <==>
      && (forall i :: 0 <= i < |refs| ==> ReferenceSchemaValid(refs[i]))
      && (forall i :: 0 <= i < |refs| ==> AbsoluteSource(lib, refs[i]))
  {
    forall i | 0 <= i < |refs|
      ensures ReferenceSchemaValid(refs[i]) && AbsoluteSource(lib, refs[i]) <==> GoodReference(lib, refs[i])
    {
      ReferenceExactly(lib, refs[i]);
    }
  }

  lemma {:induction false} ValidCoverage(lib: Library, c: Certificate)
    requires CertificateSchemaValid(c) && CertificateWellFormed(lib, c)
    ensures GoodCoverage(c)
  {
  }

  lemma {:induction false} CoverageValid(c: Certificate)
    requires GoodCoverage(c)
    ensures c.formatVersion in {1, 2} && (c.proofManifestSha256.Some? ==> ShaPattern(c.proofManifestSha256.value))
  {
    if c.proofManifestSha256.Some? { ShaHasPattern(c.proofManifestSha256.value); }
  }

  lemma {:induction false} CertificateParts(lib: Library, c: Certificate)
    ensures GoodDigests(c.id) && GoodGraph(lib, c.id.graphContext) <==>
      IdentitySchemaValid(c.id) && (c.id.graphContext.NamedGraph? ==> AbsoluteIri(lib, c.id.graphContext.graphIri))
    ensures DigestText(c.directBgpResultSha256) <==> ShaPattern(c.directBgpResultSha256)
    ensures (forall i :: 0 <= i < |c.supportReferences| ==> GoodReference(lib, c.supportReferences[i])) <==>
      && (forall i :: 0 <= i < |c.supportReferences| ==> ReferenceSchemaValid(c.supportReferences[i]))
      && (forall i :: 0 <= i < |c.supportReferences| ==> AbsoluteSource(lib, c.supportReferences[i]))
  {
    IdentityExactly(lib, c.id);
    DigestExactly(c.directBgpResultSha256);
    ReferencesExactly(lib, c.supportReferences);
  }

  lemma {:induction false} ValidCertificateIsGood(lib: Library, c: Certificate)
    requires CertificateSchemaValid(c) && CertificateWellFormed(lib, c)
    ensures GoodCertificate(lib, c)
  {
    ValidCoverage(lib, c);
    CertificateParts(lib, c);
    ReasonerExactly(c.reasoner);
    EvidenceExactly(c.completeness);
    assert forall i :: 0 <= i < |c.supportReferences| ==> AbsoluteSource(lib, c.supportReferences[i]);
  }

  lemma {:induction false} GoodCertificateIsValid(lib: Library, c: Certificate)
    requires GoodCertificate(lib, c)
    ensures CertificateSchemaValid(c) && CertificateWellFormed(lib, c)
  {
    CoverageValid(c);
    CertificateParts(lib, c);
    ReasonerExactly(c.reasoner);
    EvidenceExactly(c.completeness);
    assert forall i :: 0 <= i < |c.supportReferences| ==> AbsoluteSource(lib, c.supportReferences[i]);
  }

  /** The certificate validator accepts exactly the good certificates. */
  lemma {:induction false} CertificateExactly(lib: Library, c: Certificate)
    ensures CertificateSchemaValid(c) && CertificateWellFormed(lib, c) <==> GoodCertificate(lib, c)
  {
    if CertificateSchemaValid(c) && CertificateWellFormed(lib, c) { ValidCertificateIsGood(lib, c); }
    if GoodCertificate(lib, c) { GoodCertificateIsValid(lib, c); }
  }
}
